/**
 * What every facet decoder shares: the walk over a mapping's flattened key/value list, two
 * nodes at a time, stopping at the first failure; and the conversion of a sequence node's
 * elements into parsed nodes (MakeEnum, and the `fileTypes` branch of the file decoder).
 */
module Pairs {
  import opened Wrappers
  import opened Nodes
  import opened Errors
  import opened Outcomes

  /** One key/value pair's effect on a variant's state `S`, or the error that aborts the decode. */
  type Step<!S> = (Library, S, YamlNode, YamlNode) -> Result<S, Error>

  /** The decoders' loop: pairs left to right; the first failure stops it with the state reached. */
  function DecodePairs<S>(lib: Library, step: Step<S>, s: S, v: seq<YamlNode>): Outcome<S>
    requires |v| % 2 == 0
    decreases |v|
  {
    if |v| == 0 then Outcome(s, None)
    else match step(lib, s, v[0], v[1])
      case Err(e) => Outcome(s, Some(e))
      case Ok(t) => DecodePairs(lib, step, t, v[2..])
  }

  /**
   * Decoding a list is decoding its first part and then, unless that failed, the rest from the
   * state reached: the pairs are processed strictly left to right and a failure aborts the rest.
   */
  lemma {:induction false} DecodePairsAppend<S>(lib: Library, step: Step<S>, s: S, v: seq<YamlNode>, w: seq<YamlNode>)
    requires |v| % 2 == 0 && |w| % 2 == 0
    ensures DecodePairs(lib, step, s, v + w) ==
      var d := DecodePairs(lib, step, s, v);
      if d.error.Some? then d else DecodePairs(lib, step, d.state, w)
  {
    if |v| > 0 {
      assert (v + w)[0] == v[0] && (v + w)[1] == v[1];
      assert (v + w)[2..] == v[2..] + w;
      match step(lib, s, v[0], v[1])
      case Err(_) =>
      case Ok(t) => DecodePairsAppend(lib, step, t, v[2..], w);
    } else {
      assert v + w == w;
    }
  }

  /** The value node of the last pair whose key is `key`. */
  function LastValue(v: seq<YamlNode>, key: string): Option<YamlNode>
    requires |v| % 2 == 0
    decreases |v|
  {
    if |v| == 0 then None
    else
      var later := LastValue(v[2..], key);
      if later.Some? then later
      else if v[0].value == key then Some(v[1])
      else None
  }

  /** Every successful step leaves `env` of the state as it was. */
  ghost predicate StepKeeps<S(!new), E>(lib: Library, step: Step<S>, env: S -> E)
  {
    forall t, k, x {:trigger step(lib, t, k, x)} ::
      step(lib, t, k, x).Ok? ==> env(step(lib, t, k, x).value) == env(t)
  }

  /**
   * Every successful step with key `key` sets `proj` of the state to `write` of the value node
   * (given `env` of the state), and every successful step with another key leaves it alone.
   */
  ghost predicate StepWrites<S(!new), E, T>(lib: Library, step: Step<S>, key: string, env: S -> E, proj: S -> T, write: (E, YamlNode) -> T)
  {
    forall t, k, x {:trigger step(lib, t, k, x)} ::
      step(lib, t, k, x).Ok? ==>
        proj(step(lib, t, k, x).value) == if k.value == key then write(env(t), x) else proj(t)
  }

  /** What no step changes, no decode changes, whether it succeeds or not. */
  lemma {:induction false} DecodeKeeps<S(!new), E>(lib: Library, step: Step<S>, s: S, v: seq<YamlNode>, env: S -> E)
    requires |v| % 2 == 0 && StepKeeps(lib, step, env)
    ensures env(DecodePairs(lib, step, s, v).state) == env(s)
    decreases |v|
  {
    if |v| > 0 {
      match step(lib, s, v[0], v[1])
      case Err(_) =>
      case Ok(t) => DecodeKeeps(lib, step, t, v[2..], env);
    }
  }

  /**
   * After a successful decode, a field that only pairs with key `key` write holds what the last
   * such pair wrote, or its initial value when no pair has that key.
   */
  lemma {:induction false} LastWriteWins<S(!new), E, T>(lib: Library, step: Step<S>, s: S, v: seq<YamlNode>, key: string,
                                                  env: S -> E, proj: S -> T, write: (E, YamlNode) -> T)
    requires |v| % 2 == 0
    requires StepKeeps(lib, step, env) && StepWrites(lib, step, key, env, proj, write)
    requires DecodePairs(lib, step, s, v).error.None?
    ensures proj(DecodePairs(lib, step, s, v).state) ==
      match LastValue(v, key)
      case None => proj(s)
      case Some(x) => write(env(s), x)
    decreases |v|
  {
    if |v| > 0 {
      var t := step(lib, s, v[0], v[1]).value;
      LastWriteWins(lib, step, t, v[2..], key, env, proj, write);
    }
  }

  /**
   * Converts every element of a sequence node's content, in order; the first element that
   * fails decides the error.
   */
  function ConvertAll(lib: Library, convert: (Library, YamlNode, string) -> Result<Node, Error>,
                      items: seq<YamlNode>, location: string): (r: Result<seq<Node>, Error>)
    ensures r.Ok? <==> forall i | 0 <= i < |items| :: convert(lib, items[i], location).Ok?
    ensures r.Ok? ==> (|r.value| == |items| &&
      forall i | 0 <= i < |items| :: convert(lib, items[i], location) == Ok(r.value[i]))
    decreases |items|
  {
    if |items| == 0 then Ok([])
    else
      var last := |items| - 1;
      match ConvertAll(lib, convert, items[..last], location)
      case Err(e) => Err(e)
      case Ok(ns) =>
        match convert(lib, items[last], location)
        case Err(e) => Err(e)
        case Ok(n) => Ok(ns + [n])
  }

  /** A conversion that fails first at element `i` fails with that element's error. */
  lemma {:induction false} FirstFailureDecides(lib: Library, convert: (Library, YamlNode, string) -> Result<Node, Error>,
                                               items: seq<YamlNode>, location: string, i: nat)
    requires i < |items|
    requires forall j | 0 <= j < i :: convert(lib, items[j], location).Ok?
    requires convert(lib, items[i], location).Err?
    ensures ConvertAll(lib, convert, items, location) == Err(convert(lib, items[i], location).error)
    decreases |items|
  {
    var last := |items| - 1;
    var init := items[..last];
    if i == last {
      assert forall j | 0 <= j < |init| :: init[j] == items[j];
    } else {
      assert init[i] == items[i];
      assert forall j | 0 <= j < i :: init[j] == items[j];
      FirstFailureDecides(lib, convert, init, location, i);
    }
  }

  /** An enum member: MakeNode of the element, its failure wrapped. */
  function EnumMember(lib: Library, x: YamlNode, location: string): Result<Node, Error>
  {
    match lib.makeNode(x, location)
    case Err(m) => Err(Wrapped("make node enum", Foreign(m)))
    case Ok(n) => Ok(n)
  }

  /** A file type: a `!!str` element, then MakeNode of it, its failure wrapped. */
  function FileType(lib: Library, x: YamlNode, location: string): Result<Node, Error>
  {
    if x.tag != "!!str" then Err(Invalid("member of fileTypes must be string"))
    else match lib.makeNode(x, location)
      case Err(m) => Err(Wrapped("make node fileTypes", Foreign(m)))
      case Ok(n) => Ok(n)
  }

  /** What MakeEnum returns for a node. */
  function EnumOf(lib: Library, v: YamlNode, location: string): Result<seq<Node>, Error>
  {
    if v.kind != SequenceNode then Err(Invalid("enum must be sequence node"))
    else ConvertAll(lib, EnumMember, v.content, location)
  }

  /** What the `fileTypes` branch of the file decoder builds from a node. */
  function FileTypesOf(lib: Library, v: YamlNode, location: string): Result<seq<Node>, Error>
  {
    if v.kind != SequenceNode then Err(Invalid("fileTypes must be sequence node"))
    else ConvertAll(lib, FileType, v.content, location)
  }

  /**
   * MakeEnum: a sequence node's elements made into nodes, into a slice allocated up front, in
   * their order; a non-sequence node or any element MakeNode rejects is an error.
   */
  method MakeEnum(lib: Library, v: YamlNode, location: string) returns (r: Result<seq<Node>, Error>)
    ensures r == EnumOf(lib, v, location)
  {
    if v.kind != SequenceNode {
      return Err(Invalid("enum must be sequence node"));
    }
    var enums := new Node[|v.content|];
    for i := 0 to |v.content|
      invariant forall j | 0 <= j < i :: lib.makeNode(v.content[j], location) == Ok(enums[j])
    {
      var n := lib.makeNode(v.content[i], location);
      if n.Err? {
        FirstFailureDecides(lib, EnumMember, v.content, location, i);
        return Err(Wrapped("make node enum", Foreign(n.error)));
      }
      enums[i] := n.value;
    }
    var all := ConvertAll(lib, EnumMember, v.content, location);
    assert all.Ok? && all.value == enums[..];
    return Ok(enums[..]);
  }

  /**
   * The `fileTypes` branch of the file decoder: like MakeEnum, but every element must also be
   * tagged `!!str`, which is checked before MakeNode is called on it.
   */
  method MakeFileTypes(lib: Library, v: YamlNode, location: string) returns (r: Result<seq<Node>, Error>)
    ensures r == FileTypesOf(lib, v, location)
  {
    if v.kind != SequenceNode {
      return Err(Invalid("fileTypes must be sequence node"));
    }
    var fileTypes := new Node[|v.content|];
    for i := 0 to |v.content|
      invariant forall j | 0 <= j < i :: v.content[j].tag == "!!str" && lib.makeNode(v.content[j], location) == Ok(fileTypes[j])
    {
      var x := v.content[i];
      if x.tag != "!!str" {
        FirstFailureDecides(lib, FileType, v.content, location, i);
        return Err(Invalid("member of fileTypes must be string"));
      }
      var n := lib.makeNode(x, location);
      if n.Err? {
        FirstFailureDecides(lib, FileType, v.content, location, i);
        return Err(Wrapped("make node fileTypes", Foreign(n.error)));
      }
      fileTypes[i] := n.value;
    }
    var all := ConvertAll(lib, FileType, v.content, location);
    assert all.Ok? && all.value == fileTypes[..];
    return Ok(fileTypes[..]);
  }

  /**
   * An enum is made exactly when the node is a sequence whose every element MakeNode accepts;
   * it then holds those nodes, one per element, in order.
   */
  lemma EnumOfMembers(lib: Library, v: YamlNode, location: string)
    ensures v.kind != SequenceNode ==> EnumOf(lib, v, location) == Err(Invalid("enum must be sequence node"))
    ensures var r := EnumOf(lib, v, location);
      r.Ok? <==> v.kind == SequenceNode && forall i | 0 <= i < |v.content| :: lib.makeNode(v.content[i], location).Ok?
    ensures var r := EnumOf(lib, v, location);
      r.Ok? ==> (|r.value| == |v.content| &&
        forall i | 0 <= i < |v.content| :: lib.makeNode(v.content[i], location) == Ok(r.value[i]))
  {
  }

  /**
   * File types are made exactly when the node is a sequence whose every element is tagged
   * `!!str` and accepted by MakeNode; they then hold those nodes, one per element, in order.
   */
  lemma FileTypesOfMembers(lib: Library, v: YamlNode, location: string)
    ensures v.kind != SequenceNode ==> FileTypesOf(lib, v, location) == Err(Invalid("fileTypes must be sequence node"))
    ensures var r := FileTypesOf(lib, v, location);
      r.Ok? <==> (v.kind == SequenceNode &&
        forall i | 0 <= i < |v.content| :: v.content[i].tag == "!!str" && lib.makeNode(v.content[i], location).Ok?)
    ensures var r := FileTypesOf(lib, v, location);
      r.Ok? ==> (|r.value| == |v.content| &&
        forall i | 0 <= i < |v.content| :: lib.makeNode(v.content[i], location) == Ok(r.value[i]))
  {
  }
}
