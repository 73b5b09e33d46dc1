/**
 The MCP output normaliser of core/plugins/mcp_output_normalizer.go.

 A decoded JSON value becomes a tree of bounded depth, width and string length, and a flag tells whether
 anything was cut.  Strings are sequences of bytes; white-space trimming and JSON parsing are parameters.
 */
module Normalizer {
  import opened Common

  type Bytes = seq<char>
  type Trimmer = Bytes -> Bytes

  // A decoded value; an object lists its fields in the order of their keys.
  datatype Json =
    | Null
    | Bool(b: bool)
    | Number(r: real)
    | Str(s: Bytes)
    | Array(items: seq<Json>)
    | Object(fields: seq<Field>)
  datatype Field = Field(key: Bytes, value: Json)

  datatype Node = ScalarNode(scalar: Json) | ArrayNode(items: seq<Node>) | ObjectNode(fields: seq<NodeField>)
  datatype NodeField = NodeField(key: Bytes, value: Node)

  datatype Limits = Limits(maxPayload: int, maxFields: int, maxItems: int, maxDepth: int, maxString: int)

  predicate Positive(n: Limits) {
    n.maxPayload > 0 && n.maxFields > 0 && n.maxItems > 0 && n.maxDepth > 0 && n.maxString > 0
  }

  const DEFAULT_LIMITS := Limits(8192, 12, 12, 3, 256)

  function WithDefaults(n: Limits): (r: Limits)
    ensures Positive(r) && (Positive(n) ==> r == n)
    ensures n.maxPayload > 0 ==> r.maxPayload == n.maxPayload
    ensures n.maxFields > 0 ==> r.maxFields == n.maxFields
    ensures n.maxItems > 0 ==> r.maxItems == n.maxItems
    ensures n.maxDepth > 0 ==> r.maxDepth == n.maxDepth
    ensures n.maxString > 0 ==> r.maxString == n.maxString
    ensures n.maxPayload <= 0 ==> r.maxPayload == DEFAULT_LIMITS.maxPayload
    ensures n.maxFields <= 0 ==> r.maxFields == DEFAULT_LIMITS.maxFields
    ensures n.maxItems <= 0 ==> r.maxItems == DEFAULT_LIMITS.maxItems
    ensures n.maxDepth <= 0 ==> r.maxDepth == DEFAULT_LIMITS.maxDepth
    ensures n.maxString <= 0 ==> r.maxString == DEFAULT_LIMITS.maxString
  {
    Limits(if n.maxPayload <= 0 then DEFAULT_LIMITS.maxPayload else n.maxPayload,
           if n.maxFields <= 0 then DEFAULT_LIMITS.maxFields else n.maxFields,
           if n.maxItems <= 0 then DEFAULT_LIMITS.maxItems else n.maxItems,
           if n.maxDepth <= 0 then DEFAULT_LIMITS.maxDepth else n.maxDepth,
           if n.maxString <= 0 then DEFAULT_LIMITS.maxString else n.maxString)
  }

  const OBJECT_OMITTED: Bytes := "object omitted at max depth"
  const ARRAY_OMITTED: Bytes := "array omitted at max depth"
  const FIELDS_OMITTED: Bytes := "additional fields omitted"
  const ITEMS_OMITTED: Bytes := "additional items omitted"

  predicate Marker(s: Bytes) { s == OBJECT_OMITTED || s == ARRAY_OMITTED || s == FIELDS_OMITTED || s == ITEMS_OMITTED }

  function Note(s: Bytes): Node { ScalarNode(Str(s)) }
  function Summary(s: Bytes): NodeField { NodeField("summary", Note(s)) }

  function Min(a: int, b: int): int { if a < b then a else b }

  /******* The tree that is built *******/

  function Cut(n: Limits, s: Bytes): Bytes
    requires Positive(n)
  {
    if |s| <= n.maxString then s else s[..n.maxString] + "..."
  }

  function Leaf(n: Limits, trim: Trimmer, j: Json): Json
    requires Positive(n)
  {
    if j.Str? then Str(Cut(n, trim(j.s))) else j
  }

  function Norm(n: Limits, trim: Trimmer, j: Json, depth: nat): Node
    requires Positive(n)
    decreases j, 0
  {
    match j
    case Array(items) => ArrayNode(NormArray(n, trim, items, depth))
    case Object(fields) => ObjectNode(NormObject(n, trim, fields, depth))
    case _ => ScalarNode(Leaf(n, trim, j))
  }

  function NormArray(n: Limits, trim: Trimmer, items: seq<Json>, depth: nat): seq<Node>
    requires Positive(n)
    decreases items, |items| + 1
  {
    if depth >= n.maxDepth then [Note(ARRAY_OMITTED)]
    else NormItems(n, trim, items, depth + 1, Min(|items|, n.maxItems))
         + (if |items| > n.maxItems then [Note(ITEMS_OMITTED)] else [])
  }

  function NormItems(n: Limits, trim: Trimmer, items: seq<Json>, depth: nat, k: nat): (r: seq<Node>)
    requires Positive(n) && k <= |items|
    ensures |r| == k
    decreases items, k
  {
    if k == 0 then [] else NormItems(n, trim, items, depth, k - 1) + [Norm(n, trim, items[k - 1], depth)]
  }

  function NormObject(n: Limits, trim: Trimmer, fields: seq<Field>, depth: nat): seq<NodeField>
    requires Positive(n)
    decreases fields, |fields| + 1
  {
    if depth >= n.maxDepth then [Summary(OBJECT_OMITTED)]
    else NormFields(n, trim, fields, depth + 1, Min(|fields|, n.maxFields))
         + (if |fields| > n.maxFields then [Summary(FIELDS_OMITTED)] else [])
  }

  function NormFields(n: Limits, trim: Trimmer, fields: seq<Field>, depth: nat, k: nat): (r: seq<NodeField>)
    requires Positive(n) && k <= |fields|
    ensures |r| == k
    decreases fields, k
  {
    if k == 0 then []
    else NormFields(n, trim, fields, depth, k - 1)
         + [NodeField(fields[k - 1].key, Norm(n, trim, fields[k - 1].value, depth))]
  }

  /******* When nothing is cut *******/

  // The value is within every limit.
  predicate Fits(n: Limits, trim: Trimmer, j: Json, depth: nat)
    decreases j
  {
    match j
    case Str(s) => |trim(s)| <= n.maxString
    case Array(items) =>
      depth < n.maxDepth && |items| <= n.maxItems && forall i :: 0 <= i < |items| ==> Fits(n, trim, items[i], depth + 1)
    case Object(fields) =>
      depth < n.maxDepth && |fields| <= n.maxFields
      && forall i :: 0 <= i < |fields| ==> Fits(n, trim, fields[i].value, depth + 1)
    case _ => true
  }

  // The visited part of an array or object is within the limits.
  ghost predicate ItemsFit(n: Limits, trim: Trimmer, items: seq<Json>, depth: nat, k: nat)
    requires k <= |items|
  {
    forall i :: 0 <= i < k ==> Fits(n, trim, items[i], depth)
  }

  ghost predicate FieldsFit(n: Limits, trim: Trimmer, fields: seq<Field>, depth: nat, k: nat)
    requires k <= |fields|
  {
    forall i :: 0 <= i < k ==> Fits(n, trim, fields[i].value, depth)
  }

  ghost predicate ArrayFits(n: Limits, trim: Trimmer, items: seq<Json>, depth: nat) {
    depth < n.maxDepth && |items| <= n.maxItems && ItemsFit(n, trim, items, depth + 1, |items|)
  }

  ghost predicate ObjectFits(n: Limits, trim: Trimmer, fields: seq<Field>, depth: nat) {
    depth < n.maxDepth && |fields| <= n.maxFields && FieldsFit(n, trim, fields, depth + 1, |fields|)
  }

  // How deep arrays and objects nest in a value.
  function Levels(j: Json): nat
    decreases j, 0
  {
    match j
    case Array(items) => 1 + ItemLevels(items, |items|)
    case Object(fields) => 1 + FieldLevels(fields, |fields|)
    case _ => 0
  }

  function ItemLevels(items: seq<Json>, k: nat): nat
    requires k <= |items|
    decreases items, k
  {
    if k == 0 then 0 else Max(ItemLevels(items, k - 1), Levels(items[k - 1]))
  }

  function FieldLevels(fields: seq<Field>, k: nat): nat
    requires k <= |fields|
    decreases fields, k
  {
    if k == 0 then 0 else Max(FieldLevels(fields, k - 1), Levels(fields[k - 1].value))
  }

  function Max(a: nat, b: nat): nat { if a < b then b else a }

  // No array, object or string of the value is longer than its limit, at whatever depth.
  predicate Narrow(n: Limits, trim: Trimmer, j: Json)
    decreases j
  {
    match j
    case Str(s) => |trim(s)| <= n.maxString
    case Array(items) => |items| <= n.maxItems && forall i :: 0 <= i < |items| ==> Narrow(n, trim, items[i])
    case Object(fields) => |fields| <= n.maxFields && forall i :: 0 <= i < |fields| ==> Narrow(n, trim, fields[i].value)
    case _ => true
  }

  // A value exceeds no limit if and only if it nests at most as deep as the levels that are left and no
  // part of it is too long.
  lemma {:induction false} FitsExactly(n: Limits, trim: Trimmer, j: Json, depth: nat)
    requires Positive(n) && depth <= n.maxDepth
    ensures Fits(n, trim, j, depth) <==> depth + Levels(j) <= n.maxDepth && Narrow(n, trim, j)
    decreases j, 0
  {
    match j
    case Array(items) => if depth < n.maxDepth { ItemsFitExactly(n, trim, items, depth + 1, |items|); }
    case Object(fields) => if depth < n.maxDepth { FieldsFitExactly(n, trim, fields, depth + 1, |fields|); }
    case _ =>
  }

  lemma {:induction false} ItemsFitExactly(n: Limits, trim: Trimmer, items: seq<Json>, depth: nat, k: nat)
    requires Positive(n) && depth <= n.maxDepth && k <= |items|
    ensures ItemsFit(n, trim, items, depth, k) <==>
              depth + ItemLevels(items, k) <= n.maxDepth && forall i :: 0 <= i < k ==> Narrow(n, trim, items[i])
    decreases items, k
  {
    if k > 0 {
      ItemsFitExactly(n, trim, items, depth, k - 1);
      FitsExactly(n, trim, items[k - 1], depth);
      assert ItemsFit(n, trim, items, depth, k) <==> ItemsFit(n, trim, items, depth, k - 1) && Fits(n, trim, items[k - 1], depth);
    }
  }

  lemma {:induction false} FieldsFitExactly(n: Limits, trim: Trimmer, fields: seq<Field>, depth: nat, k: nat)
    requires Positive(n) && depth <= n.maxDepth && k <= |fields|
    ensures FieldsFit(n, trim, fields, depth, k) <==>
              depth + FieldLevels(fields, k) <= n.maxDepth && forall i :: 0 <= i < k ==> Narrow(n, trim, fields[i].value)
    decreases fields, k
  {
    if k > 0 {
      FieldsFitExactly(n, trim, fields, depth, k - 1);
      FitsExactly(n, trim, fields[k - 1].value, depth);
      assert FieldsFit(n, trim, fields, depth, k) <==> FieldsFit(n, trim, fields, depth, k - 1) && Fits(n, trim, fields[k - 1].value, depth);
    }
  }

  /******* The code: a tree and a shared flag *******/

  method TruncateString(n: Limits, value: Bytes, truncated: bool) returns (r: Bytes, flag: bool)
    requires Positive(n)
    ensures r == Cut(n, value) && flag == (truncated || |value| > n.maxString)
  {
    if |value| <= n.maxString {
      return value, truncated;
    }
    return value[..n.maxString] + "...", true;
  }

  method NormalizeScalar(n: Limits, trim: Trimmer, value: Json, truncated: bool) returns (r: Json, flag: bool)
    requires Positive(n)
    ensures r == Leaf(n, trim, value)
    ensures flag == (truncated || (value.Str? && |trim(value.s)| > n.maxString))
  {
    if value.Str? {
      var s;
      s, flag := TruncateString(n, trim(value.s), truncated);
      return Str(s), flag;
    }
    return value, truncated;
  }

  method NormalizeNode(n: Limits, trim: Trimmer, value: Json, depth: nat, truncated: bool) returns (node: Node, flag: bool)
    requires Positive(n)
    ensures node == Norm(n, trim, value, depth) && flag == (truncated || !Fits(n, trim, value, depth))
    decreases value, 0
  {
    match value {
      case Object(fields) =>
        var fs;
        fs, flag := NormalizeObject(n, trim, fields, depth, truncated);
        node := ObjectNode(fs);
      case Array(items) =>
        var ns;
        ns, flag := NormalizeArray(n, trim, items, depth, truncated);
        node := ArrayNode(ns);
      case _ =>
        var s;
        s, flag := NormalizeScalar(n, trim, value, truncated);
        node := ScalarNode(s);
    }
  }

  method NormalizeArray(n: Limits, trim: Trimmer, items: seq<Json>, depth: nat, truncated: bool) returns (r: seq<Node>, flag: bool)
    requires Positive(n)
    ensures r == NormArray(n, trim, items, depth) && flag == (truncated || !ArrayFits(n, trim, items, depth))
    decreases items, |items| + 1
  {
    if depth >= n.maxDepth {
      return [Note(ARRAY_OMITTED)], true;
    }
    var limit := Min(|items|, n.maxItems);
    flag := truncated || |items| > limit;
    r := [];
    for k := 0 to limit
      invariant r == NormItems(n, trim, items, depth + 1, k)
      invariant flag == (truncated || |items| > limit || !ItemsFit(n, trim, items, depth + 1, k))
    {
      var node;
      node, flag := NormalizeNode(n, trim, items[k], depth + 1, flag);
      r := r + [node];
    }
    if |items| > limit {
      r := r + [Note(ITEMS_OMITTED)];
    }
  }

  method NormalizeObject(n: Limits, trim: Trimmer, fields: seq<Field>, depth: nat, truncated: bool) returns (r: seq<NodeField>, flag: bool)
    requires Positive(n)
    ensures r == NormObject(n, trim, fields, depth) && flag == (truncated || !ObjectFits(n, trim, fields, depth))
    decreases fields, |fields| + 1
  {
    if depth >= n.maxDepth {
      return [Summary(OBJECT_OMITTED)], true;
    }
    var limit := Min(|fields|, n.maxFields);
    flag := truncated || |fields| > limit;
    r := [];
    for k := 0 to limit
      invariant r == NormFields(n, trim, fields, depth + 1, k)
      invariant flag == (truncated || |fields| > limit || !FieldsFit(n, trim, fields, depth + 1, k))
    {
      var node;
      node, flag := NormalizeNode(n, trim, fields[k].value, depth + 1, flag);
      r := r + [NodeField(fields[k].key, node)];
    }
    if |fields| > limit {
      r := r + [Summary(FIELDS_OMITTED)];
    }
  }

  datatype Kind = Empty | NonJson | Decoded
  datatype Output = Output(kind: Kind, originalBytes: nat, truncated: bool, body: Node, clipped: bool)

  // The payload as far as it is looked at.
  function Clip(n: Limits, s: Bytes): Bytes
    requires Positive(n)
  {
    if |s| > n.maxPayload then s[..n.maxPayload] else s
  }

  // t is the beginning of s, as long as the limit allows.
  predicate KeptBytes(limit: nat, s: Bytes, t: Bytes) { t <= s && |t| <= limit && (|t| == limit || t == s) }

  // Normalize as a whole: what is reported cut is exactly what exceeds a limit.
  method Normalize(limits: Limits, trim: Trimmer, parse: Bytes -> Option<Json>, raw: Bytes) returns (out: Output)
    ensures
      var n, cleaned := WithDefaults(limits), trim(raw);
      var seen := Clip(n, cleaned);
      && out.originalBytes == |cleaned| && out.clipped == (|cleaned| > n.maxPayload)
      && (out.kind == Empty <==> cleaned == [])
      && (out.kind == Empty ==> out.body == ScalarNode(Null) && !out.truncated)
      && (out.kind == NonJson ==> parse(seen) == None && out.body == Note(Cut(n, seen))
                                  && out.truncated == (out.clipped || |seen| > n.maxString))
      && (out.kind == Decoded ==> parse(seen).Some? && out.body == Norm(n, trim, parse(seen).value, 0)
                                  && out.truncated == (out.clipped || !Fits(n, trim, parse(seen).value, 0)))
    ensures out.kind == Decoded && !out.truncated ==>
              parse(trim(raw)).Some? && Decode(out.body) == Trimmed(trim, parse(trim(raw)).value)
    ensures out.kind == Decoded ==>
              parse(Clip(WithDefaults(limits), trim(raw))).Some?
              && Keeps(WithDefaults(limits), trim, parse(Clip(WithDefaults(limits), trim(raw))).value, 0, out.body)
    ensures out.kind == NonJson ==>
              out.body.ScalarNode? && out.body.scalar.Str?
              && KeptString(WithDefaults(limits).maxString, Clip(WithDefaults(limits), trim(raw)), out.body.scalar.s)
    ensures KeptBytes(WithDefaults(limits).maxPayload, trim(raw), Clip(WithDefaults(limits), trim(raw)))
    ensures out.kind == Decoded ==> Bounded(WithDefaults(limits), out.body, WithDefaults(limits).maxDepth + 1)
  {
    var n := WithDefaults(limits);
    var cleaned := trim(raw);
    var originalBytes := |cleaned|;
    if originalBytes == 0 {
      return Output(Empty, 0, false, ScalarNode(Null), false);
    }
    var truncated := false;
    if |cleaned| > n.maxPayload {
      cleaned := cleaned[..n.maxPayload];
      truncated := true;
    }
    var clipped := truncated;
    var decoded := parse(cleaned);
    if decoded.None? {
      var preview;
      preview, truncated := TruncateString(n, cleaned, truncated);
      return Output(NonJson, originalBytes, truncated, Note(preview), clipped);
    }
    var body;
    body, truncated := NormalizeNode(n, trim, decoded.value, 0, truncated);
    if !truncated {
      UntruncatedRoundTrip(n, trim, decoded.value, 0);
    }
    NormKeeps(n, trim, decoded.value, 0);
    NormBounded(n, trim, decoded.value, 0);
    return Output(Decoded, originalBytes, truncated, body, clipped);
  }

  /******* Reading the tree back *******/

  function Decode(node: Node): Json
    decreases node, 0
  {
    match node
    case ScalarNode(scalar) => scalar
    case ArrayNode(items) => Array(DecodeItems(items, |items|))
    case ObjectNode(fields) => Object(DecodeFields(fields, |fields|))
  }

  function DecodeItems(items: seq<Node>, k: nat): (r: seq<Json>)
    requires k <= |items|
    ensures |r| == k
    decreases items, k
  {
    if k == 0 then [] else DecodeItems(items, k - 1) + [Decode(items[k - 1])]
  }

  function DecodeFields(fields: seq<NodeField>, k: nat): (r: seq<Field>)
    requires k <= |fields|
    ensures |r| == k
    decreases fields, k
  {
    if k == 0 then [] else DecodeFields(fields, k - 1) + [Field(fields[k - 1].key, Decode(fields[k - 1].value))]
  }

  // The value with every string trimmed; keys are left alone.
  function Trimmed(trim: Trimmer, j: Json): Json
    decreases j, 0
  {
    match j
    case Str(s) => Str(trim(s))
    case Array(items) => Array(TrimmedItems(trim, items, |items|))
    case Object(fields) => Object(TrimmedFields(trim, fields, |fields|))
    case _ => j
  }

  function TrimmedItems(trim: Trimmer, items: seq<Json>, k: nat): (r: seq<Json>)
    requires k <= |items|
    ensures |r| == k
    decreases items, k
  {
    if k == 0 then [] else TrimmedItems(trim, items, k - 1) + [Trimmed(trim, items[k - 1])]
  }

  function TrimmedFields(trim: Trimmer, fields: seq<Field>, k: nat): (r: seq<Field>)
    requires k <= |fields|
    ensures |r| == k
    decreases fields, k
  {
    if k == 0 then [] else TrimmedFields(trim, fields, k - 1) + [Field(fields[k - 1].key, Trimmed(trim, fields[k - 1].value))]
  }

  lemma {:induction false} DecodeItemsPrefix(items: seq<Node>, more: seq<Node>, k: nat)
    requires k <= |items|
    ensures DecodeItems(items + more, k) == DecodeItems(items, k)
  {
    if k > 0 {
      DecodeItemsPrefix(items, more, k - 1);
    }
  }

  lemma {:induction false} DecodeFieldsPrefix(fields: seq<NodeField>, more: seq<NodeField>, k: nat)
    requires k <= |fields|
    ensures DecodeFields(fields + more, k) == DecodeFields(fields, k)
  {
    if k > 0 {
      DecodeFieldsPrefix(fields, more, k - 1);
    }
  }

  // A value that is not reported truncated is recovered from its tree, up to trimming of strings.
  lemma {:induction false} UntruncatedRoundTrip(n: Limits, trim: Trimmer, j: Json, depth: nat)
    requires Positive(n) && Fits(n, trim, j, depth)
    ensures Decode(Norm(n, trim, j, depth)) == Trimmed(trim, j)
    decreases j, 0
  {
    match j
    case Array(items) =>
      ItemsRoundTrip(n, trim, items, depth + 1, |items|);
      assert NormArray(n, trim, items, depth) == NormItems(n, trim, items, depth + 1, |items|);
    case Object(fields) =>
      FieldsRoundTrip(n, trim, fields, depth + 1, |fields|);
      assert NormObject(n, trim, fields, depth) == NormFields(n, trim, fields, depth + 1, |fields|);
    case _ =>
  }

  lemma {:induction false} ItemsRoundTrip(n: Limits, trim: Trimmer, items: seq<Json>, depth: nat, k: nat)
    requires Positive(n) && k <= |items| && ItemsFit(n, trim, items, depth, k)
    ensures DecodeItems(NormItems(n, trim, items, depth, k), k) == TrimmedItems(trim, items, k)
    decreases items, k
  {
    if k > 0 {
      ItemsRoundTrip(n, trim, items, depth, k - 1);
      UntruncatedRoundTrip(n, trim, items[k - 1], depth);
      DecodeItemsPrefix(NormItems(n, trim, items, depth, k - 1), [Norm(n, trim, items[k - 1], depth)], k - 1);
    }
  }

  lemma {:induction false} FieldsRoundTrip(n: Limits, trim: Trimmer, fields: seq<Field>, depth: nat, k: nat)
    requires Positive(n) && k <= |fields| && FieldsFit(n, trim, fields, depth, k)
    ensures DecodeFields(NormFields(n, trim, fields, depth, k), k) == TrimmedFields(trim, fields, k)
    decreases fields, k
  {
    if k > 0 {
      FieldsRoundTrip(n, trim, fields, depth, k - 1);
      UntruncatedRoundTrip(n, trim, fields[k - 1].value, depth);
      DecodeFieldsPrefix(NormFields(n, trim, fields, depth, k - 1),
                         [NodeField(fields[k - 1].key, Norm(n, trim, fields[k - 1].value, depth))], k - 1);
    }
  }

  /******* What is kept when something is cut *******/

  // t is s as far as the limit allows, followed by dots if that is not all of s.
  predicate KeptString(limit: nat, s: Bytes, t: Bytes) {
    if |s| <= limit then t == s
    else |t| == limit + 3 && (forall i :: 0 <= i < limit ==> t[i] == s[i]) && forall i :: limit <= i < limit + 3 ==> t[i] == '.'
  }

  // The number of children kept, and whether a note follows them.
  predicate KeptChildren(limit: nat, given: nat, kept: nat, made: nat) {
    kept <= given && kept <= limit && (kept == given || kept == limit) && made == kept + if given > limit then 1 else 0
  }

  /**
   The tree keeps of a value what the limits allow: the first children, in order, with their keys, the
   first bytes of a string, other scalars as they are, and a note in place of what is left out.
   */
  ghost predicate Keeps(n: Limits, trim: Trimmer, j: Json, depth: nat, node: Node)
    requires Positive(n)
    decreases j
  {
    match j
    case Str(s) => node.ScalarNode? && node.scalar.Str? && KeptString(n.maxString, trim(s), node.scalar.s)
    case Array(items) =>
      node.ArrayNode?
      && if depth >= n.maxDepth then node.items == [Note(ARRAY_OMITTED)]
         else exists k: nat ::
                && KeptChildren(n.maxItems, |items|, k, |node.items|)
                && (forall i :: 0 <= i < k ==> Keeps(n, trim, items[i], depth + 1, node.items[i]))
                && (k < |items| ==> node.items[k] == Note(ITEMS_OMITTED))
    case Object(fields) =>
      node.ObjectNode?
      && if depth >= n.maxDepth then node.fields == [Summary(OBJECT_OMITTED)]
         else exists k: nat ::
                && KeptChildren(n.maxFields, |fields|, k, |node.fields|)
                && (forall i :: 0 <= i < k ==>
                      node.fields[i].key == fields[i].key && Keeps(n, trim, fields[i].value, depth + 1, node.fields[i].value))
                && (k < |fields| ==> node.fields[k] == Summary(FIELDS_OMITTED))
    case _ => node == ScalarNode(j)
  }

  lemma {:induction false} NormKeeps(n: Limits, trim: Trimmer, j: Json, depth: nat)
    requires Positive(n)
    ensures Keeps(n, trim, j, depth, Norm(n, trim, j, depth))
    decreases j, 0
  {
    match j
    case Array(items) =>
      if depth < n.maxDepth {
        var k: nat := Min(|items|, n.maxItems);
        ItemsKept(n, trim, items, depth + 1, k);
        assert KeptChildren(n.maxItems, |items|, k, |NormArray(n, trim, items, depth)|);
      }
    case Object(fields) =>
      if depth < n.maxDepth {
        var k: nat := Min(|fields|, n.maxFields);
        FieldsKept(n, trim, fields, depth + 1, k);
        assert KeptChildren(n.maxFields, |fields|, k, |NormObject(n, trim, fields, depth)|);
      }
    case _ =>
  }

  lemma {:induction false} ItemsKept(n: Limits, trim: Trimmer, items: seq<Json>, depth: nat, k: nat)
    requires Positive(n) && k <= |items|
    ensures forall i :: 0 <= i < k ==> Keeps(n, trim, items[i], depth, NormItems(n, trim, items, depth, k)[i])
    decreases items, k
  {
    if k > 0 {
      ItemsKept(n, trim, items, depth, k - 1);
      NormKeeps(n, trim, items[k - 1], depth);
    }
  }

  lemma {:induction false} FieldsKept(n: Limits, trim: Trimmer, fields: seq<Field>, depth: nat, k: nat)
    requires Positive(n) && k <= |fields|
    ensures
      var r := NormFields(n, trim, fields, depth, k);
      forall i :: 0 <= i < k ==> r[i].key == fields[i].key && Keeps(n, trim, fields[i].value, depth, r[i].value)
    decreases fields, k
  {
    if k > 0 {
      FieldsKept(n, trim, fields, depth, k - 1);
      NormKeeps(n, trim, fields[k - 1].value, depth);
    }
  }

  /******* Bounds *******/

  predicate LeafOk(n: Limits, j: Json) { j.Str? ==> |j.s| <= n.maxString + 3 || Marker(j.s) }

  // At most h levels below this node, bounded numbers of children, bounded strings.
  predicate Bounded(n: Limits, node: Node, h: nat)
    decreases node
  {
    match node
    case ScalarNode(scalar) => LeafOk(n, scalar)
    case ArrayNode(items) =>
      h > 0 && |items| <= n.maxItems + 1 && forall i :: 0 <= i < |items| ==> Bounded(n, items[i], h - 1)
    case ObjectNode(fields) =>
      h > 0 && |fields| <= n.maxFields + 1 && forall i :: 0 <= i < |fields| ==> Bounded(n, fields[i].value, h - 1)
  }

  // Whatever the input, the tree nests at most maxDepth + 1 levels, no node has more children than its
  // limit and one, and no string is longer than its limit and three, except the four fixed notes.
  lemma {:induction false} NormBounded(n: Limits, trim: Trimmer, j: Json, depth: nat)
    requires Positive(n) && depth <= n.maxDepth
    ensures Bounded(n, Norm(n, trim, j, depth), n.maxDepth - depth + 1)
    decreases j, 0
  {
    match j
    case Array(items) =>
      var r, k, h := NormArray(n, trim, items, depth), Min(|items|, n.maxItems), n.maxDepth - depth;
      forall i | 0 <= i < |r| ensures Bounded(n, r[i], h) {
        if depth < n.maxDepth && i < k {
          ItemsBounded(n, trim, items, depth + 1, k);
          assert r[i] == NormItems(n, trim, items, depth + 1, k)[i];
        }
      }
    case Object(fields) =>
      var r, k, h := NormObject(n, trim, fields, depth), Min(|fields|, n.maxFields), n.maxDepth - depth;
      forall i | 0 <= i < |r| ensures Bounded(n, r[i].value, h) {
        if depth < n.maxDepth && i < k {
          FieldsBounded(n, trim, fields, depth + 1, k);
          assert r[i] == NormFields(n, trim, fields, depth + 1, k)[i];
        }
      }
    case _ =>
  }

  lemma {:induction false} ItemsBounded(n: Limits, trim: Trimmer, items: seq<Json>, depth: nat, k: nat)
    requires Positive(n) && k <= |items| && depth <= n.maxDepth
    ensures forall i :: 0 <= i < k ==> Bounded(n, NormItems(n, trim, items, depth, k)[i], n.maxDepth - depth + 1)
    decreases items, k
  {
    if k > 0 {
      ItemsBounded(n, trim, items, depth, k - 1);
      NormBounded(n, trim, items[k - 1], depth);
    }
  }

  lemma {:induction false} FieldsBounded(n: Limits, trim: Trimmer, fields: seq<Field>, depth: nat, k: nat)
    requires Positive(n) && k <= |fields| && depth <= n.maxDepth
    ensures forall i :: 0 <= i < k ==> Bounded(n, NormFields(n, trim, fields, depth, k)[i].value, n.maxDepth - depth + 1)
    decreases fields, k
  {
    if k > 0 {
      FieldsBounded(n, trim, fields, depth, k - 1);
      NormBounded(n, trim, fields[k - 1].value, depth);
    }
  }

  function Count(node: Node): nat
    decreases node, 0
  {
    match node
    case ScalarNode(_) => 1
    case ArrayNode(items) => 1 + CountItems(items, |items|)
    case ObjectNode(fields) => 1 + CountFields(fields, |fields|)
  }

  function CountItems(items: seq<Node>, k: nat): nat
    requires k <= |items|
    decreases items, k
  {
    if k == 0 then 0 else CountItems(items, k - 1) + Count(items[k - 1])
  }

  function CountFields(fields: seq<NodeField>, k: nat): nat
    requires k <= |fields|
    decreases fields, k
  {
    if k == 0 then 0 else CountFields(fields, k - 1) + Count(fields[k - 1].value)
  }

  function Fanout(n: Limits): int { 1 + if n.maxFields < n.maxItems then n.maxItems else n.maxFields }

  // 1 + b + ... + b^h
  function Geometric(b: nat, h: nat): nat { if h == 0 then 1 else 1 + b * Geometric(b, h - 1) }

  function Power(b: nat, h: nat): nat { if h == 0 then 1 else b * Power(b, h - 1) }

  lemma {:induction false} GeometricClosed(b: nat, h: nat)
    requires b >= 1
    ensures (b - 1) * Geometric(b, h) == Power(b, h + 1) - 1
  {
    if h > 0 {
      GeometricClosed(b, h - 1);
      GeometricStep(b, Geometric(b, h - 1), Power(b, h));
    }
  }

  lemma GeometricStep(b: int, g: int, p: int)
    requires (b - 1) * g == p - 1
    ensures (b - 1) * (1 + b * g) == b * p - 1
  {
    calc {
      (b - 1) * (1 + b * g);
      (b - 1) + (b - 1) * (b * g);
      (b - 1) + b * ((b - 1) * g);
      (b - 1) + b * (p - 1);
      b * p - 1;
    }
  }

  lemma {:induction false} BoundedCount(n: Limits, node: Node, h: nat)
    requires Positive(n) && Bounded(n, node, h)
    ensures Count(node) <= Geometric(Fanout(n), h)
    decreases node, 0
  {
    match node
    case ScalarNode(_) =>
    case ArrayNode(items) =>
      BoundedItems(n, items, h - 1, |items|);
      Scale(|items|, Fanout(n), Geometric(Fanout(n), h - 1));
    case ObjectNode(fields) =>
      BoundedFields(n, fields, h - 1, |fields|);
      Scale(|fields|, Fanout(n), Geometric(Fanout(n), h - 1));
  }

  lemma Scale(a: nat, b: nat, g: nat)
    requires a <= b
    ensures a * g <= b * g
  {
  }

  lemma OneMore(k: int, g: int)
    ensures k * g == (k - 1) * g + g
  {
  }

  lemma {:induction false} BoundedItems(n: Limits, items: seq<Node>, h: nat, k: nat)
    requires Positive(n) && k <= |items| && forall i :: 0 <= i < k ==> Bounded(n, items[i], h)
    ensures CountItems(items, k) <= k * Geometric(Fanout(n), h)
    decreases items, k
  {
    if k > 0 {
      BoundedItems(n, items, h, k - 1);
      BoundedCount(n, items[k - 1], h);
      OneMore(k, Geometric(Fanout(n), h));
    }
  }

  lemma {:induction false} BoundedFields(n: Limits, fields: seq<NodeField>, h: nat, k: nat)
    requires Positive(n) && k <= |fields| && forall i :: 0 <= i < k ==> Bounded(n, fields[i].value, h)
    ensures CountFields(fields, k) <= k * Geometric(Fanout(n), h)
    decreases fields, k
  {
    if k > 0 {
      BoundedFields(n, fields, h, k - 1);
      BoundedCount(n, fields[k - 1].value, h);
      OneMore(k, Geometric(Fanout(n), h));
    }
  }

  // The number of nodes is bounded by the limits alone.
  lemma NormCount(n: Limits, trim: Trimmer, j: Json)
    requires Positive(n)
    ensures Count(Norm(n, trim, j, 0)) <= Geometric(Fanout(n), n.maxDepth + 1)
    ensures (Fanout(n) - 1) * Geometric(Fanout(n), n.maxDepth + 1) == Power(Fanout(n), n.maxDepth + 2) - 1
  {
    NormBounded(n, trim, j, 0);
    BoundedCount(n, Norm(n, trim, j, 0), n.maxDepth + 1);
    GeometricClosed(Fanout(n), n.maxDepth + 1);
  }

  /******* The notes are not cut *******/

  predicate StringsWithin(node: Node, b: int)
    decreases node
  {
    match node
    case ScalarNode(scalar) => scalar.Str? ==> |scalar.s| <= b
    case ArrayNode(items) => forall i :: 0 <= i < |items| ==> StringsWithin(items[i], b)
    case ObjectNode(fields) => forall i :: 0 <= i < |fields| ==> StringsWithin(fields[i].value, b)
  }

  lemma {:induction false} BoundedWithin(n: Limits, node: Node, h: nat)
    requires Bounded(n, node, h) && n.maxString >= 24
    ensures StringsWithin(node, n.maxString + 3)
    decreases node
  {
    match node
    case ScalarNode(_) =>
    case ArrayNode(items) =>
      forall i | 0 <= i < |items| ensures StringsWithin(items[i], n.maxString + 3) {
        BoundedWithin(n, items[i], h - 1);
      }
    case ObjectNode(fields) =>
      forall i | 0 <= i < |fields| ensures StringsWithin(fields[i].value, n.maxString + 3) {
        BoundedWithin(n, fields[i].value, h - 1);
      }
  }

  // An empty object inside k arrays.
  function Nested(k: nat): Json { if k == 0 then Object([]) else Array([Nested(k - 1)]) }

  lemma {:induction false} NestedNote(n: Limits, trim: Trimmer, k: nat, depth: nat)
    requires Positive(n) && n.maxString < 24 && k + depth == n.maxDepth
    ensures !StringsWithin(Norm(n, trim, Nested(k), depth), n.maxString + 3)
    decreases k
  {
    var node := Norm(n, trim, Nested(k), depth);
    if k == 0 {
      assert !StringsWithin(node.fields[0].value, n.maxString + 3);
    } else {
      NestedNote(n, trim, k - 1, depth + 1);
      var items := [Nested(k - 1)];
      assert NormItems(n, trim, items, depth + 1, 1) == [Norm(n, trim, items[0], depth + 1)] by {
        assert NormItems(n, trim, items, depth + 1, 0) == [];
      }
      assert node == ArrayNode(NormArray(n, trim, items, depth));
      assert node.items[0] == Norm(n, trim, Nested(k - 1), depth + 1);
    }
  }

  // Every string of every tree is within its limit and three if and only if the limit is at least 24:
  // the longest note has 27 bytes.
  lemma StringBoundExactlyWhen(n: Limits, trim: Trimmer)
    requires Positive(n)
    ensures (forall j :: StringsWithin(Norm(n, trim, j, 0), n.maxString + 3)) <==> n.maxString >= 24
  {
    if n.maxString >= 24 {
      forall j ensures StringsWithin(Norm(n, trim, j, 0), n.maxString + 3) {
        NormBounded(n, trim, j, 0);
        BoundedWithin(n, Norm(n, trim, j, 0), n.maxDepth + 1);
      }
    } else {
      NestedNote(n, trim, n.maxDepth, 0);
    }
  }
}
