/**
 * The facet decoders (UnmarshalYAMLNodes) of each scalar variant with facets, on values: the
 * effect of one key/value pair, dispatched on the key's text. A known key type-checks and
 * converts its value node and overwrites its facet; any other key has its value made into a
 * node and stored under that key among the custom facets. Decoding a whole list is
 * `Pairs.DecodePairs` of these steps.
 */
module Decoders {
  import opened Wrappers
  import opened Nodes
  import opened Errors
  import opened Outcomes
  import opened Decimal
  import opened Facets
  import opened Pairs

  /** The keys each variant's decoder recognises; every other key becomes a custom facet. */
  const IntegerKeys: set<string> := {"minimum", "maximum", "multipleOf", "format", "enum"}
  const NumberKeys: set<string> := {"minimum", "maximum", "format", "enum", "multipleOf"}
  const StringKeys: set<string> := {"minLength", "maxLength", "pattern", "enum"}
  const FileKeys: set<string> := {"minLength", "maxLength", "fileTypes"}
  const BooleanKeys: set<string> := {"enum"}
  const DateTimeKeys: set<string> := {"format"}

  /** The custom-facet branch shared by every decoder: MakeNode of the value, stored under the key. */
  function AddCustomFacet(lib: Library, b: BaseShape, key: string, x: YamlNode): Result<BaseShape, Error>
  {
    match lib.makeNode(x, b.location)
    case Err(m) => Err(Wrapped("make node", Foreign(m)))
    case Ok(n) => Ok(b.(customShapeFacets := b.customShapeFacets[key := n]))
  }

  /** A library Decode of a value node, its failure wrapped with what was being decoded. */
  function Decoded<T>(r: Result<Option<T>, string>, what: string): Result<Option<T>, Error>
  {
    match r
    case Err(m) => Err(Wrapped(what, Foreign(m)))
    case Ok(o) => Ok(o)
  }

  /**
   * An integer bound: tagged `!!int`, then parsed in base 10; `notInteger` and `invalid` are the
   * messages of the two ways it can fail.
   */
  function IntegerBound(x: YamlNode, notInteger: string, invalid: string): Result<int, Error>
  {
    if x.tag != "!!int" then Err(Invalid(notInteger))
    else match ParseDecimal(x.value)
      case None => Err(Invalid(invalid))
      case Some(n) => Ok(n)
  }

  /** One pair of IntegerShape.UnmarshalYAMLNodes. */
  function IntegerFacet(lib: Library, s: IntegerValue, key: YamlNode, x: YamlNode): Result<IntegerValue, Error>
  {
    var k := key.value;
    if k == "minimum" then
      match IntegerBound(x, "minimum must be integer", "invalid minimum value")
      case Err(e) => Err(e)
      case Ok(n) => Ok(s.(integerFacets := s.integerFacets.(minimum := Some(n))))
    else if k == "maximum" then
      match IntegerBound(x, "maximum must be integer", "invalid maximum value")
      case Err(e) => Err(e)
      case Ok(n) => Ok(s.(integerFacets := s.integerFacets.(maximum := Some(n))))
    else if k == "multipleOf" then
      if x.tag != "!!int" then Err(Invalid("multipleOf must be integer"))
      else match Decoded(lib.decodeInt64(x), "decode multipleOf")
        case Err(e) => Err(e)
        case Ok(m) => Ok(s.(integerFacets := s.integerFacets.(multipleOf := m)))
    else if k == "format" then
      match Decoded(lib.decodeString(x), "decode format")
      case Err(e) => Err(e)
      case Ok(f) => Ok(s.(formatFacets := FormatFacets(f)))
    else if k == "enum" then
      match EnumOf(lib, x, s.base.location)
      case Err(e) => Err(Wrapped("make enum", e))
      case Ok(ns) => Ok(s.(enumFacets := EnumFacets(Some(ns))))
    else
      match AddCustomFacet(lib, s.base, k, x)
      case Err(e) => Err(e)
      case Ok(b) => Ok(s.(base := b))
  }

  /** One pair of NumberShape.UnmarshalYAMLNodes. */
  function NumberFacet(lib: Library, s: NumberValue, key: YamlNode, x: YamlNode): Result<NumberValue, Error>
  {
    var k := key.value;
    if k == "minimum" then
      match Decoded(lib.decodeFloat64(x), "decode minimum")
      case Err(e) => Err(e)
      case Ok(r) => Ok(s.(numberFacets := s.numberFacets.(minimum := r)))
    else if k == "maximum" then
      match Decoded(lib.decodeFloat64(x), "decode maximum")
      case Err(e) => Err(e)
      case Ok(r) => Ok(s.(numberFacets := s.numberFacets.(maximum := r)))
    else if k == "format" then
      match Decoded(lib.decodeString(x), "decode format")
      case Err(e) => Err(e)
      case Ok(f) => Ok(s.(formatFacets := FormatFacets(f)))
    else if k == "enum" then
      match EnumOf(lib, x, s.base.location)
      case Err(e) => Err(Wrapped("make enum", e))
      case Ok(ns) => Ok(s.(enumFacets := EnumFacets(Some(ns))))
    else if k == "multipleOf" then
      match Decoded(lib.decodeFloat64(x), "decode multipleOf")
      case Err(e) => Err(e)
      case Ok(r) => Ok(s.(numberFacets := s.numberFacets.(multipleOf := r)))
    else
      match AddCustomFacet(lib, s.base, k, x)
      case Err(e) => Err(e)
      case Ok(b) => Ok(s.(base := b))
  }

  /** A pattern: tagged `!!str`, then compiled. */
  function PatternOf(lib: Library, x: YamlNode): Result<Regexp, Error>
  {
    if x.tag != "!!str" then Err(Invalid("pattern must be string"))
    else match lib.compile(x.value)
      case Err(m) => Err(Wrapped("decode pattern", Foreign(m)))
      case Ok(re) => Ok(re)
  }

  /** One pair of StringShape.UnmarshalYAMLNodes. */
  function StringFacet(lib: Library, s: StringValue, key: YamlNode, x: YamlNode): Result<StringValue, Error>
  {
    var k := key.value;
    var f := s.stringFacets;
    if k == "minLength" then
      match Decoded(lib.decodeUint64(x), "decode minLength")
      case Err(e) => Err(e)
      case Ok(n) => Ok(s.(stringFacets := f.(lengthFacets := f.lengthFacets.(minLength := n))))
    else if k == "maxLength" then
      match Decoded(lib.decodeUint64(x), "decode maxLength")
      case Err(e) => Err(e)
      case Ok(n) => Ok(s.(stringFacets := f.(lengthFacets := f.lengthFacets.(maxLength := n))))
    else if k == "pattern" then
      match PatternOf(lib, x)
      case Err(e) => Err(e)
      case Ok(re) => Ok(s.(stringFacets := f.(pattern := Some(re))))
    else if k == "enum" then
      match EnumOf(lib, x, s.base.location)
      case Err(e) => Err(Wrapped("make enum", e))
      case Ok(ns) => Ok(s.(enumFacets := EnumFacets(Some(ns))))
    else
      match AddCustomFacet(lib, s.base, k, x)
      case Err(e) => Err(e)
      case Ok(b) => Ok(s.(base := b))
  }

  /** One pair of FileShape.UnmarshalYAMLNodes. */
  function FileFacet(lib: Library, s: FileValue, key: YamlNode, x: YamlNode): Result<FileValue, Error>
  {
    var k := key.value;
    if k == "minLength" then
      match Decoded(lib.decodeUint64(x), "decode minLength")
      case Err(e) => Err(e)
      case Ok(n) => Ok(s.(lengthFacets := s.lengthFacets.(minLength := n)))
    else if k == "maxLength" then
      match Decoded(lib.decodeUint64(x), "decode maxLength")
      case Err(e) => Err(e)
      case Ok(n) => Ok(s.(lengthFacets := s.lengthFacets.(maxLength := n)))
    else if k == "fileTypes" then
      match FileTypesOf(lib, x, s.base.location)
      case Err(e) => Err(e)
      case Ok(ns) => Ok(s.(fileFacets := FileFacets(Some(ns))))
    else
      match AddCustomFacet(lib, s.base, k, x)
      case Err(e) => Err(e)
      case Ok(b) => Ok(s.(base := b))
  }

  /** One pair of BooleanShape.UnmarshalYAMLNodes. */
  function BooleanFacet(lib: Library, s: BooleanValue, key: YamlNode, x: YamlNode): Result<BooleanValue, Error>
  {
    if key.value == "enum" then
      match EnumOf(lib, x, s.base.location)
      case Err(e) => Err(Wrapped("make enum", e))
      case Ok(ns) => Ok(s.(enumFacets := EnumFacets(Some(ns))))
    else
      match AddCustomFacet(lib, s.base, key.value, x)
      case Err(e) => Err(e)
      case Ok(b) => Ok(s.(base := b))
  }

  /** One pair of DateTimeShape.UnmarshalYAMLNodes. */
  function DateTimeFacet(lib: Library, s: DateTimeValue, key: YamlNode, x: YamlNode): Result<DateTimeValue, Error>
  {
    if key.value == "format" then
      match Decoded(lib.decodeString(x), "decode format")
      case Err(e) => Err(e)
      case Ok(f) => Ok(s.(formatFacets := FormatFacets(f)))
    else
      match AddCustomFacet(lib, s.base, key.value, x)
      case Err(e) => Err(e)
      case Ok(b) => Ok(s.(base := b))
  }

  // ---- What the decoders promise ----

  /** The node MakeNode builds for a custom facet's value, when it builds one. */
  function CustomNode(lib: Library, location: string, x: YamlNode): Option<Node>
  {
    match lib.makeNode(x, location)
    case Err(_) => None
    case Ok(n) => Some(n)
  }

  /** The part of a shape's base no decoder changes: all but the custom facets. */
  function Identity(b: BaseShape): BaseShape
  {
    b.(customShapeFacets := map[])
  }

  /** A key IntegerShape's decoder recognises is never filed as a custom facet. */
  lemma IntegerKnownKeyKept(lib: Library, s: IntegerValue, v: seq<YamlNode>, k: string)
    requires |v| % 2 == 0 && k in IntegerKeys
    ensures Lookup(DecodePairs(lib, IntegerFacet, s, v).state.base.customShapeFacets, k) == Lookup(s.base.customShapeFacets, k)
  {
    DecodeKeeps(lib, IntegerFacet, s, v, (t: IntegerValue) => Lookup(t.base.customShapeFacets, k));
  }

  /**
   * IntegerShape's decoder never changes the shape's id, type name or location; after a
   * successful decode every key it does not recognise holds MakeNode of that key's last value,
   * and a key it does recognise never reaches the custom facets, whether the decode succeeds or not.
   */
  lemma IntegerCustomFacets(lib: Library, s: IntegerValue, v: seq<YamlNode>, k: string)
    requires |v| % 2 == 0
    ensures Identity(DecodePairs(lib, IntegerFacet, s, v).state.base) == Identity(s.base)
    ensures k !in IntegerKeys && DecodePairs(lib, IntegerFacet, s, v).error.None? ==>
      Lookup(DecodePairs(lib, IntegerFacet, s, v).state.base.customShapeFacets, k) ==
        match LastValue(v, k)
        case None => Lookup(s.base.customShapeFacets, k)
        case Some(x) => CustomNode(lib, s.base.location, x)
    ensures k in IntegerKeys ==>
      Lookup(DecodePairs(lib, IntegerFacet, s, v).state.base.customShapeFacets, k) == Lookup(s.base.customShapeFacets, k)
  {
    var env := (t: IntegerValue) => Identity(t.base);
    DecodeKeeps(lib, IntegerFacet, s, v, env);
    if k in IntegerKeys {
      IntegerKnownKeyKept(lib, s, v, k);
    }
    if k !in IntegerKeys && DecodePairs(lib, IntegerFacet, s, v).error.None? {
      LastWriteWins(lib, IntegerFacet, s, v, k, env,
                    (t: IntegerValue) => Lookup(t.base.customShapeFacets, k),
                    (b: BaseShape, x: YamlNode) => CustomNode(lib, b.location, x));
    }
  }

  /** A key NumberShape's decoder recognises is never filed as a custom facet. */
  lemma NumberKnownKeyKept(lib: Library, s: NumberValue, v: seq<YamlNode>, k: string)
    requires |v| % 2 == 0 && k in NumberKeys
    ensures Lookup(DecodePairs(lib, NumberFacet, s, v).state.base.customShapeFacets, k) == Lookup(s.base.customShapeFacets, k)
  {
    DecodeKeeps(lib, NumberFacet, s, v, (t: NumberValue) => Lookup(t.base.customShapeFacets, k));
  }

  /** NumberShape's decoder keeps the shape's identity and files unknown keys as custom facets, as for integers. */
  lemma NumberCustomFacets(lib: Library, s: NumberValue, v: seq<YamlNode>, k: string)
    requires |v| % 2 == 0
    ensures Identity(DecodePairs(lib, NumberFacet, s, v).state.base) == Identity(s.base)
    ensures k !in NumberKeys && DecodePairs(lib, NumberFacet, s, v).error.None? ==>
      Lookup(DecodePairs(lib, NumberFacet, s, v).state.base.customShapeFacets, k) ==
        match LastValue(v, k)
        case None => Lookup(s.base.customShapeFacets, k)
        case Some(x) => CustomNode(lib, s.base.location, x)
    ensures k in NumberKeys ==>
      Lookup(DecodePairs(lib, NumberFacet, s, v).state.base.customShapeFacets, k) == Lookup(s.base.customShapeFacets, k)
  {
    var env := (t: NumberValue) => Identity(t.base);
    DecodeKeeps(lib, NumberFacet, s, v, env);
    if k in NumberKeys {
      NumberKnownKeyKept(lib, s, v, k);
    }
    if k !in NumberKeys && DecodePairs(lib, NumberFacet, s, v).error.None? {
      LastWriteWins(lib, NumberFacet, s, v, k, env,
                    (t: NumberValue) => Lookup(t.base.customShapeFacets, k),
                    (b: BaseShape, x: YamlNode) => CustomNode(lib, b.location, x));
    }
  }

  /** A key StringShape's decoder recognises is never filed as a custom facet. */
  lemma StringKnownKeyKept(lib: Library, s: StringValue, v: seq<YamlNode>, k: string)
    requires |v| % 2 == 0 && k in StringKeys
    ensures Lookup(DecodePairs(lib, StringFacet, s, v).state.base.customShapeFacets, k) == Lookup(s.base.customShapeFacets, k)
  {
    DecodeKeeps(lib, StringFacet, s, v, (t: StringValue) => Lookup(t.base.customShapeFacets, k));
  }

  /** StringShape's decoder keeps the shape's identity and files unknown keys as custom facets, as for integers. */
  lemma StringCustomFacets(lib: Library, s: StringValue, v: seq<YamlNode>, k: string)
    requires |v| % 2 == 0
    ensures Identity(DecodePairs(lib, StringFacet, s, v).state.base) == Identity(s.base)
    ensures k !in StringKeys && DecodePairs(lib, StringFacet, s, v).error.None? ==>
      Lookup(DecodePairs(lib, StringFacet, s, v).state.base.customShapeFacets, k) ==
        match LastValue(v, k)
        case None => Lookup(s.base.customShapeFacets, k)
        case Some(x) => CustomNode(lib, s.base.location, x)
    ensures k in StringKeys ==>
      Lookup(DecodePairs(lib, StringFacet, s, v).state.base.customShapeFacets, k) == Lookup(s.base.customShapeFacets, k)
  {
    var env := (t: StringValue) => Identity(t.base);
    DecodeKeeps(lib, StringFacet, s, v, env);
    if k in StringKeys {
      StringKnownKeyKept(lib, s, v, k);
    }
    if k !in StringKeys && DecodePairs(lib, StringFacet, s, v).error.None? {
      LastWriteWins(lib, StringFacet, s, v, k, env,
                    (t: StringValue) => Lookup(t.base.customShapeFacets, k),
                    (b: BaseShape, x: YamlNode) => CustomNode(lib, b.location, x));
    }
  }

  /** A key FileShape's decoder recognises is never filed as a custom facet. */
  lemma FileKnownKeyKept(lib: Library, s: FileValue, v: seq<YamlNode>, k: string)
    requires |v| % 2 == 0 && k in FileKeys
    ensures Lookup(DecodePairs(lib, FileFacet, s, v).state.base.customShapeFacets, k) == Lookup(s.base.customShapeFacets, k)
  {
    DecodeKeeps(lib, FileFacet, s, v, (t: FileValue) => Lookup(t.base.customShapeFacets, k));
  }

  /** FileShape's decoder keeps the shape's identity and files unknown keys as custom facets, as for integers. */
  lemma FileCustomFacets(lib: Library, s: FileValue, v: seq<YamlNode>, k: string)
    requires |v| % 2 == 0
    ensures Identity(DecodePairs(lib, FileFacet, s, v).state.base) == Identity(s.base)
    ensures k !in FileKeys && DecodePairs(lib, FileFacet, s, v).error.None? ==>
      Lookup(DecodePairs(lib, FileFacet, s, v).state.base.customShapeFacets, k) ==
        match LastValue(v, k)
        case None => Lookup(s.base.customShapeFacets, k)
        case Some(x) => CustomNode(lib, s.base.location, x)
    ensures k in FileKeys ==>
      Lookup(DecodePairs(lib, FileFacet, s, v).state.base.customShapeFacets, k) == Lookup(s.base.customShapeFacets, k)
  {
    var env := (t: FileValue) => Identity(t.base);
    DecodeKeeps(lib, FileFacet, s, v, env);
    if k in FileKeys {
      FileKnownKeyKept(lib, s, v, k);
    }
    if k !in FileKeys && DecodePairs(lib, FileFacet, s, v).error.None? {
      LastWriteWins(lib, FileFacet, s, v, k, env,
                    (t: FileValue) => Lookup(t.base.customShapeFacets, k),
                    (b: BaseShape, x: YamlNode) => CustomNode(lib, b.location, x));
    }
  }

  /** A key BooleanShape's decoder recognises is never filed as a custom facet. */
  lemma BooleanKnownKeyKept(lib: Library, s: BooleanValue, v: seq<YamlNode>, k: string)
    requires |v| % 2 == 0 && k in BooleanKeys
    ensures Lookup(DecodePairs(lib, BooleanFacet, s, v).state.base.customShapeFacets, k) == Lookup(s.base.customShapeFacets, k)
  {
    DecodeKeeps(lib, BooleanFacet, s, v, (t: BooleanValue) => Lookup(t.base.customShapeFacets, k));
  }

  /** BooleanShape's decoder keeps the shape's identity and files unknown keys as custom facets, as for integers. */
  lemma BooleanCustomFacets(lib: Library, s: BooleanValue, v: seq<YamlNode>, k: string)
    requires |v| % 2 == 0
    ensures Identity(DecodePairs(lib, BooleanFacet, s, v).state.base) == Identity(s.base)
    ensures k !in BooleanKeys && DecodePairs(lib, BooleanFacet, s, v).error.None? ==>
      Lookup(DecodePairs(lib, BooleanFacet, s, v).state.base.customShapeFacets, k) ==
        match LastValue(v, k)
        case None => Lookup(s.base.customShapeFacets, k)
        case Some(x) => CustomNode(lib, s.base.location, x)
    ensures k in BooleanKeys ==>
      Lookup(DecodePairs(lib, BooleanFacet, s, v).state.base.customShapeFacets, k) == Lookup(s.base.customShapeFacets, k)
  {
    var env := (t: BooleanValue) => Identity(t.base);
    DecodeKeeps(lib, BooleanFacet, s, v, env);
    if k in BooleanKeys {
      BooleanKnownKeyKept(lib, s, v, k);
    }
    if k !in BooleanKeys && DecodePairs(lib, BooleanFacet, s, v).error.None? {
      LastWriteWins(lib, BooleanFacet, s, v, k, env,
                    (t: BooleanValue) => Lookup(t.base.customShapeFacets, k),
                    (b: BaseShape, x: YamlNode) => CustomNode(lib, b.location, x));
    }
  }

  /** A key DateTimeShape's decoder recognises is never filed as a custom facet. */
  lemma DateTimeKnownKeyKept(lib: Library, s: DateTimeValue, v: seq<YamlNode>, k: string)
    requires |v| % 2 == 0 && k in DateTimeKeys
    ensures Lookup(DecodePairs(lib, DateTimeFacet, s, v).state.base.customShapeFacets, k) == Lookup(s.base.customShapeFacets, k)
  {
    DecodeKeeps(lib, DateTimeFacet, s, v, (t: DateTimeValue) => Lookup(t.base.customShapeFacets, k));
  }

  /** DateTimeShape's decoder keeps the shape's identity and files unknown keys as custom facets, as for integers. */
  lemma DateTimeCustomFacets(lib: Library, s: DateTimeValue, v: seq<YamlNode>, k: string)
    requires |v| % 2 == 0
    ensures Identity(DecodePairs(lib, DateTimeFacet, s, v).state.base) == Identity(s.base)
    ensures k !in DateTimeKeys && DecodePairs(lib, DateTimeFacet, s, v).error.None? ==>
      Lookup(DecodePairs(lib, DateTimeFacet, s, v).state.base.customShapeFacets, k) ==
        match LastValue(v, k)
        case None => Lookup(s.base.customShapeFacets, k)
        case Some(x) => CustomNode(lib, s.base.location, x)
    ensures k in DateTimeKeys ==>
      Lookup(DecodePairs(lib, DateTimeFacet, s, v).state.base.customShapeFacets, k) == Lookup(s.base.customShapeFacets, k)
  {
    var env := (t: DateTimeValue) => Identity(t.base);
    DecodeKeeps(lib, DateTimeFacet, s, v, env);
    if k in DateTimeKeys {
      DateTimeKnownKeyKept(lib, s, v, k);
    }
    if k !in DateTimeKeys && DecodePairs(lib, DateTimeFacet, s, v).error.None? {
      LastWriteWins(lib, DateTimeFacet, s, v, k, env,
                    (t: DateTimeValue) => Lookup(t.base.customShapeFacets, k),
                    (b: BaseShape, x: YamlNode) => CustomNode(lib, b.location, x));
    }
  }

  /** The value of a library Decode that succeeded; None when it failed. */
  function DecodedValue<T>(r: Result<Option<T>, string>): Option<T>
  {
    match r
    case Err(_) => None
    case Ok(o) => o
  }

  /** The value of a conversion that succeeded, as an optional value. */
  function Made<T>(r: Result<T, Error>): Option<T>
  {
    match r
    case Err(_) => None
    case Ok(x) => Some(x)
  }

  /** What a successful decode leaves in a facet with key `key`: what its last pair wrote. */
  function LastWritten<T>(v: seq<YamlNode>, key: string, initial: T, write: YamlNode -> T): T
    requires |v| % 2 == 0
  {
    match LastValue(v, key)
    case None => initial
    case Some(x) => write(x)
  }

  /**
   * After a successful IntegerShape decode, each bound holds the base-10 parse of its last pair
   * in the list, or what it held before when no pair names it.
   */
  lemma IntegerBoundsLastWins(lib: Library, s: IntegerValue, v: seq<YamlNode>)
    requires |v| % 2 == 0
    requires DecodePairs(lib, IntegerFacet, s, v).error.None?
    ensures var r := DecodePairs(lib, IntegerFacet, s, v).state;
      && r.integerFacets.minimum == LastWritten(v, "minimum", s.integerFacets.minimum, (x: YamlNode) => ParseDecimal(x.value))
      && r.integerFacets.maximum == LastWritten(v, "maximum", s.integerFacets.maximum, (x: YamlNode) => ParseDecimal(x.value))
  {
    var env := (t: IntegerValue) => Identity(t.base);
    LastWriteWins(lib, IntegerFacet, s, v, "minimum", env, (t: IntegerValue) => t.integerFacets.minimum,
                  (b: BaseShape, x: YamlNode) => ParseDecimal(x.value));
    LastWriteWins(lib, IntegerFacet, s, v, "maximum", env, (t: IntegerValue) => t.integerFacets.maximum,
                  (b: BaseShape, x: YamlNode) => ParseDecimal(x.value));
  }

  /**
   * After a successful IntegerShape decode, multipleOf and format hold what the library decoded
   * from their last pair, and the enum what MakeEnum made of its last pair.
   */
  lemma IntegerFacetsLastWins(lib: Library, s: IntegerValue, v: seq<YamlNode>)
    requires |v| % 2 == 0
    requires DecodePairs(lib, IntegerFacet, s, v).error.None?
    ensures var r := DecodePairs(lib, IntegerFacet, s, v).state;
      && r.integerFacets.multipleOf == LastWritten(v, "multipleOf", s.integerFacets.multipleOf, (x: YamlNode) => DecodedValue(lib.decodeInt64(x)))
      && r.formatFacets.format == LastWritten(v, "format", s.formatFacets.format, (x: YamlNode) => DecodedValue(lib.decodeString(x)))
      && r.enumFacets.enum == LastWritten(v, "enum", s.enumFacets.enum, (x: YamlNode) => Made(EnumOf(lib, x, s.base.location)))
  {
    var env := (t: IntegerValue) => Identity(t.base);
    LastWriteWins(lib, IntegerFacet, s, v, "multipleOf", env, (t: IntegerValue) => t.integerFacets.multipleOf,
                  (b: BaseShape, x: YamlNode) => DecodedValue(lib.decodeInt64(x)));
    LastWriteWins(lib, IntegerFacet, s, v, "format", env, (t: IntegerValue) => t.formatFacets.format,
                  (b: BaseShape, x: YamlNode) => DecodedValue(lib.decodeString(x)));
    LastWriteWins(lib, IntegerFacet, s, v, "enum", env, (t: IntegerValue) => t.enumFacets.enum,
                  (b: BaseShape, x: YamlNode) => Made(EnumOf(lib, x, b.location)));
  }

  /** After a successful NumberShape decode, each bound and multipleOf hold what the library decoded from their last pair. */
  lemma NumberFacetsLastWins(lib: Library, s: NumberValue, v: seq<YamlNode>)
    requires |v| % 2 == 0
    requires DecodePairs(lib, NumberFacet, s, v).error.None?
    ensures var r := DecodePairs(lib, NumberFacet, s, v).state;
      && r.numberFacets.minimum == LastWritten(v, "minimum", s.numberFacets.minimum, (x: YamlNode) => DecodedValue(lib.decodeFloat64(x)))
      && r.numberFacets.maximum == LastWritten(v, "maximum", s.numberFacets.maximum, (x: YamlNode) => DecodedValue(lib.decodeFloat64(x)))
      && r.numberFacets.multipleOf == LastWritten(v, "multipleOf", s.numberFacets.multipleOf, (x: YamlNode) => DecodedValue(lib.decodeFloat64(x)))
  {
    var env := (t: NumberValue) => Identity(t.base);
    LastWriteWins(lib, NumberFacet, s, v, "minimum", env, (t: NumberValue) => t.numberFacets.minimum,
                  (b: BaseShape, x: YamlNode) => DecodedValue(lib.decodeFloat64(x)));
    LastWriteWins(lib, NumberFacet, s, v, "maximum", env, (t: NumberValue) => t.numberFacets.maximum,
                  (b: BaseShape, x: YamlNode) => DecodedValue(lib.decodeFloat64(x)));
    LastWriteWins(lib, NumberFacet, s, v, "multipleOf", env, (t: NumberValue) => t.numberFacets.multipleOf,
                  (b: BaseShape, x: YamlNode) => DecodedValue(lib.decodeFloat64(x)));
  }

  /** After a successful StringShape decode, the length bounds and the pattern hold what their last pair set. */
  lemma StringFacetsLastWins(lib: Library, s: StringValue, v: seq<YamlNode>)
    requires |v| % 2 == 0
    requires DecodePairs(lib, StringFacet, s, v).error.None?
    ensures var r := DecodePairs(lib, StringFacet, s, v).state;
      && r.stringFacets.lengthFacets.minLength ==
           LastWritten(v, "minLength", s.stringFacets.lengthFacets.minLength, (x: YamlNode) => DecodedValue(lib.decodeUint64(x)))
      && r.stringFacets.lengthFacets.maxLength ==
           LastWritten(v, "maxLength", s.stringFacets.lengthFacets.maxLength, (x: YamlNode) => DecodedValue(lib.decodeUint64(x)))
      && r.stringFacets.pattern == LastWritten(v, "pattern", s.stringFacets.pattern, (x: YamlNode) => Made(PatternOf(lib, x)))
  {
    var env := (t: StringValue) => Identity(t.base);
    LastWriteWins(lib, StringFacet, s, v, "minLength", env, (t: StringValue) => t.stringFacets.lengthFacets.minLength,
                  (b: BaseShape, x: YamlNode) => DecodedValue(lib.decodeUint64(x)));
    LastWriteWins(lib, StringFacet, s, v, "maxLength", env, (t: StringValue) => t.stringFacets.lengthFacets.maxLength,
                  (b: BaseShape, x: YamlNode) => DecodedValue(lib.decodeUint64(x)));
    LastWriteWins(lib, StringFacet, s, v, "pattern", env, (t: StringValue) => t.stringFacets.pattern,
                  (b: BaseShape, x: YamlNode) => Made(PatternOf(lib, x)));
  }

  /** After a successful FileShape decode, the file types hold what was made of their last pair. */
  lemma FileTypesLastWins(lib: Library, s: FileValue, v: seq<YamlNode>)
    requires |v| % 2 == 0
    requires DecodePairs(lib, FileFacet, s, v).error.None?
    ensures DecodePairs(lib, FileFacet, s, v).state.fileFacets.fileTypes ==
      LastWritten(v, "fileTypes", s.fileFacets.fileTypes, (x: YamlNode) => Made(FileTypesOf(lib, x, s.base.location)))
  {
    LastWriteWins(lib, FileFacet, s, v, "fileTypes", (t: FileValue) => Identity(t.base), (t: FileValue) => t.fileFacets.fileTypes,
                  (b: BaseShape, x: YamlNode) => Made(FileTypesOf(lib, x, b.location)));
  }

  /** After a successful NumberShape decode, format and enum hold what their last pair produced. */
  lemma NumberFormatEnumLastWins(lib: Library, s: NumberValue, v: seq<YamlNode>)
    requires |v| % 2 == 0
    requires DecodePairs(lib, NumberFacet, s, v).error.None?
    ensures var r := DecodePairs(lib, NumberFacet, s, v).state;
      && r.formatFacets.format == LastWritten(v, "format", s.formatFacets.format, (x: YamlNode) => DecodedValue(lib.decodeString(x)))
      && r.enumFacets.enum == LastWritten(v, "enum", s.enumFacets.enum, (x: YamlNode) => Made(EnumOf(lib, x, s.base.location)))
  {
    var env := (t: NumberValue) => Identity(t.base);
    LastWriteWins(lib, NumberFacet, s, v, "format", env, (t: NumberValue) => t.formatFacets.format,
                  (b: BaseShape, x: YamlNode) => DecodedValue(lib.decodeString(x)));
    LastWriteWins(lib, NumberFacet, s, v, "enum", env, (t: NumberValue) => t.enumFacets.enum,
                  (b: BaseShape, x: YamlNode) => Made(EnumOf(lib, x, b.location)));
  }

  /** After a successful StringShape decode, the enum holds what MakeEnum made of its last pair. */
  lemma StringEnumLastWins(lib: Library, s: StringValue, v: seq<YamlNode>)
    requires |v| % 2 == 0
    requires DecodePairs(lib, StringFacet, s, v).error.None?
    ensures DecodePairs(lib, StringFacet, s, v).state.enumFacets.enum ==
      LastWritten(v, "enum", s.enumFacets.enum, (x: YamlNode) => Made(EnumOf(lib, x, s.base.location)))
  {
    LastWriteWins(lib, StringFacet, s, v, "enum", (t: StringValue) => Identity(t.base), (t: StringValue) => t.enumFacets.enum,
                  (b: BaseShape, x: YamlNode) => Made(EnumOf(lib, x, b.location)));
  }

  /** After a successful FileShape decode, the length bounds hold what the library decoded from their last pair. */
  lemma FileLengthsLastWins(lib: Library, s: FileValue, v: seq<YamlNode>)
    requires |v| % 2 == 0
    requires DecodePairs(lib, FileFacet, s, v).error.None?
    ensures var r := DecodePairs(lib, FileFacet, s, v).state;
      && r.lengthFacets.minLength == LastWritten(v, "minLength", s.lengthFacets.minLength, (x: YamlNode) => DecodedValue(lib.decodeUint64(x)))
      && r.lengthFacets.maxLength == LastWritten(v, "maxLength", s.lengthFacets.maxLength, (x: YamlNode) => DecodedValue(lib.decodeUint64(x)))
  {
    var env := (t: FileValue) => Identity(t.base);
    LastWriteWins(lib, FileFacet, s, v, "minLength", env, (t: FileValue) => t.lengthFacets.minLength,
                  (b: BaseShape, x: YamlNode) => DecodedValue(lib.decodeUint64(x)));
    LastWriteWins(lib, FileFacet, s, v, "maxLength", env, (t: FileValue) => t.lengthFacets.maxLength,
                  (b: BaseShape, x: YamlNode) => DecodedValue(lib.decodeUint64(x)));
  }

  /** After a successful BooleanShape decode, the enum holds what MakeEnum made of its last pair. */
  lemma BooleanEnumLastWins(lib: Library, s: BooleanValue, v: seq<YamlNode>)
    requires |v| % 2 == 0
    requires DecodePairs(lib, BooleanFacet, s, v).error.None?
    ensures DecodePairs(lib, BooleanFacet, s, v).state.enumFacets.enum ==
      LastWritten(v, "enum", s.enumFacets.enum, (x: YamlNode) => Made(EnumOf(lib, x, s.base.location)))
  {
    LastWriteWins(lib, BooleanFacet, s, v, "enum", (t: BooleanValue) => Identity(t.base), (t: BooleanValue) => t.enumFacets.enum,
                  (b: BaseShape, x: YamlNode) => Made(EnumOf(lib, x, b.location)));
  }

  /** After a successful DateTimeShape decode, the format holds what the library decoded from its last pair. */
  lemma DateTimeFormatLastWins(lib: Library, s: DateTimeValue, v: seq<YamlNode>)
    requires |v| % 2 == 0
    requires DecodePairs(lib, DateTimeFacet, s, v).error.None?
    ensures DecodePairs(lib, DateTimeFacet, s, v).state.formatFacets.format ==
      LastWritten(v, "format", s.formatFacets.format, (x: YamlNode) => DecodedValue(lib.decodeString(x)))
  {
    LastWriteWins(lib, DateTimeFacet, s, v, "format", (t: DateTimeValue) => Identity(t.base), (t: DateTimeValue) => t.formatFacets.format,
                  (b: BaseShape, x: YamlNode) => DecodedValue(lib.decodeString(x)));
  }

  /**
   * A single `minimum` or `maximum` pair is accepted by IntegerShape's decoder exactly when its
   * value is tagged `!!int` and is base-10 text; the bound is then the parsed integer.
   */
  lemma IntegerBoundPair(lib: Library, s: IntegerValue, key: YamlNode, x: YamlNode)
    requires key.value == "minimum" || key.value == "maximum"
    ensures var d := DecodePairs(lib, IntegerFacet, s, [key, x]);
      d.error.None? <==> x.tag == "!!int" && IsDecimal(x.value)
    ensures var d := DecodePairs(lib, IntegerFacet, s, [key, x]);
      d.error.None? ==>
        (if key.value == "minimum" then d.state.integerFacets.minimum else d.state.integerFacets.maximum) == ParseDecimal(x.value)
    ensures var d := DecodePairs(lib, IntegerFacet, s, [key, x]);
      d.error.Some? ==> d.state == s
  {
    assert [key, x][2..] == [];
  }

  /**
   * A single `pattern` pair is accepted by StringShape's decoder exactly when its value is
   * tagged `!!str` and compiles; the pattern is then the compiled expression.
   */
  lemma StringPatternPair(lib: Library, s: StringValue, key: YamlNode, x: YamlNode)
    requires key.value == "pattern"
    ensures var d := DecodePairs(lib, StringFacet, s, [key, x]);
      d.error.None? <==> x.tag == "!!str" && lib.compile(x.value).Ok?
    ensures var d := DecodePairs(lib, StringFacet, s, [key, x]);
      d.error.None? ==> d.state.stringFacets.pattern == Some(lib.compile(x.value).value)
    ensures x.tag != "!!str" ==> DecodePairs(lib, StringFacet, s, [key, x]).error == Some(Invalid("pattern must be string"))
  {
    assert [key, x][2..] == [];
  }

  /**
   * A single `fileTypes` pair is accepted by FileShape's decoder exactly when its value is a
   * sequence whose every element is tagged `!!str` and made into a node; the file types are
   * then those nodes, one per element, in order.
   */
  lemma FileTypesPair(lib: Library, s: FileValue, key: YamlNode, x: YamlNode)
    requires key.value == "fileTypes"
    ensures var d := DecodePairs(lib, FileFacet, s, [key, x]);
      d.error.None? <==> (x.kind == SequenceNode &&
        forall i | 0 <= i < |x.content| :: x.content[i].tag == "!!str" && lib.makeNode(x.content[i], s.base.location).Ok?)
    ensures var d := DecodePairs(lib, FileFacet, s, [key, x]);
      d.error.None? ==> (d.state.fileFacets.fileTypes.Some? && |d.state.fileFacets.fileTypes.value| == |x.content| &&
        forall i | 0 <= i < |x.content| :: lib.makeNode(x.content[i], s.base.location) == Ok(d.state.fileFacets.fileTypes.value[i]))
  {
    assert [key, x][2..] == [];
  }
}
