/** Operations (src/Definition/Operation.php): checked views over one raw operation
    record of a service description, with shapes resolved through a locator. */
module Operations {
  import opened Base
  import opened Shapes
  import Strings

  // ---------------------------------------------------------------------------
  // The raw operation record. Every key PHP reads with `isset` or `??` is an
  // Option; a key that holds `null` is modelled as absent.

  /** `input`: the request shape reference and its serialisation hints. `method`
      is the legacy per-input HTTP method override. */
  datatype InputSpec = InputSpec(
    shape: Option<string>,
    legacyMethod: Option<string>,
    locationName: Option<string>,
    xmlNamespace: Option<XmlNamespace>)

  datatype XmlNamespace = XmlNamespace(uri: Option<string>)

  /** `output`: the response shape reference and its result wrapper. */
  datatype OutputSpec = OutputSpec(shape: Option<string>, resultWrapper: Option<string>)

  /** `http`: the HTTP binding. */
  datatype HttpSpec = HttpSpec(verb: string, requestUri: Option<string>)

  /** `endpointdiscovery`. */
  datatype EndpointDiscoverySpec = EndpointDiscoverySpec(required: Option<bool>)

  /** `endpoint`. */
  datatype EndpointSpec = EndpointSpec(hostPrefix: Option<string>)

  /** The operation record. `errors` lists the `shape` of each declared error
      entry, in declaration order and possibly with repetitions. */
  datatype OperationData = OperationData(
    schemaName: string,
    input: Option<InputSpec>,
    output: Option<OutputSpec>,
    errors: Option<seq<string>>,
    http: HttpSpec,
    deprecated: Option<bool>,
    endpointDiscovery: Option<EndpointDiscoverySpec>,
    endpointOperation: Option<bool>,
    endpoint: Option<EndpointSpec>,
    documentation: Option<string>,
    documentationUrl: Option<string>)

  /** The shape locator: every shape the service defines, by name. */
  type Locator = map<string, Shape>

  /** An operation: its name, its raw record, and the locator it resolves shapes with. */
  datatype Operation = Operation(name: string, data: OperationData, locator: Locator)

  /** Where a shape reference sits in an operation. */
  datatype Role = OutputRole | InputRole | ErrorRole(reference: string)

  /** The three ways a definition accessor fails. */
  datatype DefinitionError =
    | UnknownShape(name: string)
    | SchemaViolation(operation: string, role: Role)
    | UnsupportedLegacySchema(operation: string)

  /** Resolves a shape name; a name the service does not define is an error. */
  function Locate(locator: Locator, name: string): (r: Result<Shape, DefinitionError>)
    ensures r.Ok? <==> name in locator
    ensures r.Ok? ==> r.value == locator[name]
    ensures r.Err? ==> r.error == UnknownShape(name)
  {
    if name in locator then Ok(locator[name]) else Err(UnknownShape(name))
  }

  // ---------------------------------------------------------------------------
  // Output

  /** `output.shape`, when set. */
  function OutputReference(data: OperationData): Option<string> {
    match data.output
    case Some(o) => o.shape
    case None => None
  }

  /** `getOutput`: nothing when no output shape is declared; otherwise the
      located shape, which must be a structure. */
  function GetOutput(op: Operation): (r: Result<Option<Shape>, DefinitionError>)
    ensures r.Ok? && r.value.Some? ==> IsStructure(r.value.value)
    ensures r == Ok(None) <==> OutputReference(op.data).None?
    ensures OutputReference(op.data).Some? ==>
      var n := OutputReference(op.data).value;
      (r.Ok? <==> n in op.locator && IsStructure(op.locator[n])) &&
      (r.Ok? ==> r.value == Some(op.locator[n])) &&
      (n !in op.locator ==> r == Err(UnknownShape(n))) &&
      (n in op.locator && !IsStructure(op.locator[n]) ==> r == Err(SchemaViolation(op.name, OutputRole)))
  {
    match OutputReference(op.data)
    case None => Ok(None)
    case Some(n) =>
      match Locate(op.locator, n)
      case Err(e) => Err(e)
      case Ok(shape) =>
        if IsStructure(shape) then Ok(Some(shape)) else Err(SchemaViolation(op.name, OutputRole))
  }

  // ---------------------------------------------------------------------------
  // Errors

  /** `errors`, or the empty list when the key is absent. */
  function DeclaredErrors(data: OperationData): seq<string> {
    data.errors.GetOr([])
  }

  /** A declared error name that cannot stand for an error response: unknown
      to the locator, or not an exception shape. */
  predicate Rejected(locator: Locator, name: string) {
    name !in locator || !IsException(locator[name])
  }

  /** The first position in `names` holding a rejected name. */
  function FirstRejected(locator: Locator, names: seq<string>): (r: Option<nat>)
    ensures r.None? <==> forall i :: 0 <= i < |names| ==> !Rejected(locator, names[i])
    ensures r.Some? ==>
      r.value < |names| && Rejected(locator, names[r.value]) &&
      forall j :: 0 <= j < r.value ==> !Rejected(locator, names[j])
    decreases |names|
  {
    if |names| == 0 then None
    else if Rejected(locator, names[0]) then Some(0)
    else
      match FirstRejected(locator, names[1..])
      case None => None
      case Some(i) => Some(i + 1)
  }

  /** The failure reported for a rejected error name. */
  function RejectionError(op: Operation, name: string): DefinitionError {
    if name !in op.locator then UnknownShape(name) else SchemaViolation(op.name, ErrorRole(name))
  }

  /** The located shapes of `names`, in the same order. */
  function ResolveAll(locator: Locator, names: seq<string>): (r: seq<Shape>)
    requires forall i :: 0 <= i < |names| ==> names[i] in locator
    ensures |r| == |names|
    ensures forall i :: 0 <= i < |names| ==> r[i] == locator[names[i]]
  {
    seq(|names|, i requires 0 <= i < |names| => locator[names[i]])
  }

  /** Reference definition of `getErrors`: the failure of the first rejected
      name in declaration order; otherwise the located shapes of the distinct
      declared names in ascending name order. */
  function Errors(op: Operation): (r: Result<seq<Shape>, DefinitionError>)
    ensures r.Ok? ==> forall i :: 0 <= i < |r.value| ==> IsException(r.value[i])
    ensures r.Ok? ==> |r.value| <= |DeclaredErrors(op.data)|
    ensures r.Ok? ==> forall i :: 0 <= i < |r.value| ==>
      exists n :: n in DeclaredErrors(op.data) && n in op.locator && r.value[i] == op.locator[n]
    ensures r.Ok? ==> forall n :: n in DeclaredErrors(op.data) ==>
      n in op.locator && op.locator[n] in r.value
    ensures r.Err? ==>
      exists i :: 0 <= i < |DeclaredErrors(op.data)| &&
        Rejected(op.locator, DeclaredErrors(op.data)[i]) &&
        r.error == RejectionError(op, DeclaredErrors(op.data)[i])
  {
    var declared := DeclaredErrors(op.data);
    match FirstRejected(op.locator, declared)
    case Some(i) => Err(RejectionError(op, declared[i]))
    case None =>
      var keys := Strings.SortDistinct(declared);
      assert forall i :: 0 <= i < |keys| ==> keys[i] in declared;
      var shapes := ResolveAll(op.locator, keys);
      assert forall n :: n in declared ==> n in keys;
      assert forall n :: n in keys ==> op.locator[n] in shapes by {
        forall n | n in keys
          ensures op.locator[n] in shapes
        {
          var i :| 0 <= i < |keys| && keys[i] == n;
          assert shapes[i] == op.locator[n];
        }
      }
      Ok(shapes)
  }

  /** `getErrors` as written: walk the declared errors, skip a name already
      collected, locate and check the others, collect them under their name,
      then sort by name (`ksort`) and keep the shapes (`array_values`). */
  method GetErrors(op: Operation) returns (r: Result<seq<Shape>, DefinitionError>)
    ensures r == Errors(op)
  {
    var declared := DeclaredErrors(op.data);
    var collected: map<string, Shape> := map[];
    var order: seq<string> := [];
    var i := 0;
    while i < |declared|
      invariant 0 <= i <= |declared|
      invariant forall j :: 0 <= j < i ==> !Rejected(op.locator, declared[j])
      invariant forall k :: k in collected <==> k in order
      invariant forall k :: k in order <==> k in declared[..i]
      invariant forall k :: k in collected ==> k in op.locator && collected[k] == op.locator[k]
    {
      var name := declared[i];
      if name !in collected {
        var located := Locate(op.locator, name);
        if located.Err? {
          FirstRejectedAt(op.locator, declared, i);
          r := Err(located.error);
          return;
        }
        var shape := located.value;
        if !IsException(shape) {
          FirstRejectedAt(op.locator, declared, i);
          r := Err(SchemaViolation(op.name, ErrorRole(name)));
          return;
        }
        collected := collected[name := shape];
        order := order + [name];
      }
      assert declared[..i + 1] == declared[..i] + [name];
      i := i + 1;
    }
    assert declared[..i] == declared;
    var keys := Strings.SortDistinct(order);
    r := Ok(seq(|keys|, j requires 0 <= j < |keys| => collected[keys[j]]));
    SortedCollectionIsErrors(op, collected, order, keys, r.value);
  }

  /** A name rejected at position `i`, after only accepted names, is the first
      rejected one. */
  lemma FirstRejectedAt(locator: Locator, names: seq<string>, i: nat)
    requires i < |names| && Rejected(locator, names[i])
    requires forall j :: 0 <= j < i ==> !Rejected(locator, names[j])
    ensures FirstRejected(locator, names) == Some(i)
  {
    var r := FirstRejected(locator, names);
    assert r.Some?;
  }

  /** Once every declared name has been accepted and collected, sorting the
      collected names and reading back their shapes gives `Errors(op)`. */
  lemma SortedCollectionIsErrors(op: Operation, collected: map<string, Shape>, order: seq<string>,
                                 keys: seq<string>, shapes: seq<Shape>)
    requires forall j :: 0 <= j < |DeclaredErrors(op.data)| ==> !Rejected(op.locator, DeclaredErrors(op.data)[j])
    requires forall k :: k in collected <==> k in order
    requires forall k :: k in order <==> k in DeclaredErrors(op.data)
    requires forall k :: k in collected ==> k in op.locator && collected[k] == op.locator[k]
    requires keys == Strings.SortDistinct(order)
    requires |shapes| == |keys| && forall j :: 0 <= j < |keys| ==> keys[j] in collected && shapes[j] == collected[keys[j]]
    ensures Ok(shapes) == Errors(op)
  {
    var declared := DeclaredErrors(op.data);
    Strings.SortDistinctIgnoresOrder(order, declared);
    assert FirstRejected(op.locator, declared).None?;
    var resolved := ResolveAll(op.locator, keys);
    assert Errors(op) == Ok(resolved);
    assert shapes == resolved;
  }

  /** `getErrors` fails exactly when some declared error name is unknown or
      not an exception shape. */
  lemma ErrorsFailIff(op: Operation)
    ensures Errors(op).Err? <==> exists n :: n in DeclaredErrors(op.data) && Rejected(op.locator, n)
  {
    var declared := DeclaredErrors(op.data);
    if Errors(op).Err? {
      var i := FirstRejected(op.locator, declared).value;
      assert declared[i] in declared;
    } else {
      forall n | n in declared
        ensures !Rejected(op.locator, n)
      {
        var i :| 0 <= i < |declared| && declared[i] == n;
      }
    }
  }

  /** The reported failure belongs to the first rejected name in declaration
      order; names before it were all accepted. */
  lemma {:induction false} ErrorsReportFirstRejected(op: Operation)
    requires Errors(op).Err?
    ensures
      exists i :: 0 <= i < |DeclaredErrors(op.data)| &&
        Errors(op).error == RejectionError(op, DeclaredErrors(op.data)[i]) &&
        Rejected(op.locator, DeclaredErrors(op.data)[i]) &&
        forall j :: 0 <= j < i ==> !Rejected(op.locator, DeclaredErrors(op.data)[j])
  {
    var i := FirstRejected(op.locator, DeclaredErrors(op.data)).value;
    assert Errors(op).error == RejectionError(op, DeclaredErrors(op.data)[i]);
  }

  /** The locator files every shape under its own name. */
  predicate ConsistentLocator(locator: Locator) {
    forall k :: k in locator ==> locator[k].name == k
  }

  /** With a consistent locator, a successful `getErrors` holds the located
      shape of each distinct declared name, each declared name exactly once,
      sorted ascending by name. */
  lemma {:induction false} ErrorsSortedAndDistinct(op: Operation)
    requires ConsistentLocator(op.locator)
    requires Errors(op).Ok?
    ensures var r := Errors(op).value;
      (forall i, j :: 0 <= i < j < |r| ==> Strings.Below(r[i].name, r[j].name)) &&
      (forall i, j :: 0 <= i < j < |r| ==> r[i].name != r[j].name) &&
      (forall n :: n in DeclaredErrors(op.data) <==> exists i :: 0 <= i < |r| && r[i].name == n) &&
      (forall i :: 0 <= i < |r| ==> r[i].name in op.locator && r[i] == op.locator[r[i].name])
  {
    var declared := DeclaredErrors(op.data);
    var keys := Strings.SortDistinct(declared);
    var r := Errors(op).value;
    assert FirstRejected(op.locator, declared).None?;
    forall i | 0 <= i < |keys|
      ensures keys[i] in op.locator
    {
      assert keys[i] in keys;
      var j :| 0 <= j < |declared| && declared[j] == keys[i];
    }
    assert r == ResolveAll(op.locator, keys);
    assert forall i :: 0 <= i < |r| ==> r[i].name == keys[i];
    forall i, j | 0 <= i < j < |r|
      ensures r[i].name != r[j].name
    {
      Strings.BelowIrreflexive(keys[i]);
    }
    forall n
      ensures n in declared <==> exists i :: 0 <= i < |r| && r[i].name == n
    {
      if n in declared {
        var i :| 0 <= i < |keys| && keys[i] == n;
        assert r[i].name == n;
      }
    }
  }

  /** The order and repetition of the declared errors do not matter: two
      operations that declare the same error names (in any order, any number
      of times) both succeed or both fail, and on success return the same list. */
  lemma {:induction false} ErrorsIgnoreDeclarationOrder(op1: Operation, op2: Operation)
    requires op1.locator == op2.locator
    requires forall n :: n in DeclaredErrors(op1.data) <==> n in DeclaredErrors(op2.data)
    ensures Errors(op1).Ok? <==> Errors(op2).Ok?
    ensures Errors(op1).Ok? ==> Errors(op1) == Errors(op2)
  {
    var d1, d2 := DeclaredErrors(op1.data), DeclaredErrors(op2.data);
    ErrorsFailIff(op1);
    ErrorsFailIff(op2);
    if Errors(op1).Ok? {
      Strings.SortDistinctIgnoresOrder(d1, d2);
    }
  }

  /** The two-duplicate example: an operation declaring `NoSuchBucket` twice,
      with `NoSuchBucket` an exception shape, gets exactly that one shape back. */
  lemma DuplicateErrorExample(op: Operation, bucketError: Shape)
    requires DeclaredErrors(op.data) == ["NoSuchBucket", "NoSuchBucket"]
    requires op.locator == map["NoSuchBucket" := bucketError]
    requires IsException(bucketError)
    ensures Errors(op) == Ok([bucketError])
  {
    var declared := DeclaredErrors(op.data);
    assert declared[1..] == ["NoSuchBucket"];
    assert declared[1..][1..] == [];
    assert Strings.SortDistinct(declared[1..]) == ["NoSuchBucket"];
    assert Strings.SortDistinct(declared) == ["NoSuchBucket"];
    assert FirstRejected(op.locator, declared).None?;
    var resolved := ResolveAll(op.locator, ["NoSuchBucket"]);
    assert resolved[0] == bucketError;
    assert resolved == [bucketError];
  }

  // ---------------------------------------------------------------------------
  // Input

  /** `input.shape`, when set. */
  function InputReference(data: OperationData): Option<string> {
    match data.input
    case Some(i) => i.shape
    case None => None
  }

  /** The record of the structure that stands in for an undeclared input. */
  function EmptyStructureData(): (d: map<string, Value>)
    ensures HasTypeTag(d) && TypeTag(d) == StructureTag
  {
    // PHP writes both empty arrays as `[]`; the list of required member names
    // is encoded as a `List`, the name-keyed members as a `Record`.
    map["type" := Str(StructureTag), "required" := List([]), "members" := Record(map[])]
  }

  /** `getInputShape`: the located input shape, or a fresh empty structure
      named after the operation when no input is declared. */
  function GetInputShape(op: Operation): (r: Result<Shape, DefinitionError>)
    ensures InputReference(op.data).Some? ==> r == Locate(op.locator, InputReference(op.data).value)
    ensures InputReference(op.data).None? ==>
      r.Ok? && r.value.kind == StructureShape && r.value.name == op.name + "Request" &&
      Get(r.value, "members") == Some(Record(map[])) && Get(r.value, "required") == Some(List([]))
  {
    match InputReference(op.data)
    case Some(n) => Locate(op.locator, n)
    case None => Ok(Create(op.name + "Request", EmptyStructureData()))
  }

  /** `getInput`: the input shape, which must be a structure. */
  function GetInput(op: Operation): (r: Result<Shape, DefinitionError>)
    ensures r.Ok? ==> IsStructure(r.value)
    ensures InputReference(op.data).Some? ==>
      var n := InputReference(op.data).value;
      (r.Ok? <==> n in op.locator && IsStructure(op.locator[n])) &&
      (r.Ok? ==> r.value == op.locator[n]) &&
      (n !in op.locator ==> r == Err(UnknownShape(n))) &&
      (n in op.locator && !IsStructure(op.locator[n]) ==> r == Err(SchemaViolation(op.name, InputRole)))
  {
    match GetInputShape(op)
    case Err(e) => Err(e)
    case Ok(shape) => if IsStructure(shape) then Ok(shape) else Err(SchemaViolation(op.name, InputRole))
  }

  /** An operation without a declared input never fails `getInput`: it gets a
      structure named `<name>Request` with no members and no required members. */
  lemma UndeclaredInputIsEmptyRequest(op: Operation)
    requires InputReference(op.data).None?
    ensures GetInput(op).Ok?
    ensures var s := GetInput(op).value;
      s.kind == StructureShape && s.name == op.name + "Request" && GetType(s) == StructureTag &&
      Get(s, "members") == Some(Record(map[])) && Get(s, "required") == Some(List([]))
  {
  }

  // ---------------------------------------------------------------------------
  // HTTP binding

  /** The legacy `input.method` override is set. */
  predicate HasLegacyMethod(data: OperationData) {
    data.input.Some? && data.input.value.legacyMethod.Some?
  }

  /** `getHttpMethod`: `http.verb`, unless the record still uses the legacy
      per-input override, which is refused. */
  function GetHttpMethod(op: Operation): (r: Result<string, DefinitionError>)
    ensures r.Err? <==> HasLegacyMethod(op.data)
    ensures r.Err? ==> r.error == UnsupportedLegacySchema(op.name)
    ensures r.Ok? ==> r.value == op.data.http.verb
  {
    if HasLegacyMethod(op.data) then Err(UnsupportedLegacySchema(op.name)) else Ok(op.data.http.verb)
  }

  /** `hasBody`: whether the HTTP method carries a request body. */
  function HasBody(op: Operation): (r: Result<bool, DefinitionError>)
    ensures r.Err? <==> GetHttpMethod(op).Err?
    ensures r.Err? ==> r.error == GetHttpMethod(op).error
    ensures r.Ok? ==> (r.value <==> op.data.http.verb == "PUT" || op.data.http.verb == "POST")
  {
    match GetHttpMethod(op)
    case Err(e) => Err(e)
    case Ok(m) => Ok(m in ["PUT", "POST"])
  }

  /** The legacy override is refused whatever `http.verb` says, and
      `hasBody` fails with it. */
  lemma LegacyMethodRefused(op: Operation)
    requires HasLegacyMethod(op.data)
    ensures GetHttpMethod(op) == Err(UnsupportedLegacySchema(op.name))
    ensures HasBody(op) == Err(UnsupportedLegacySchema(op.name))
  {
  }

  // ---------------------------------------------------------------------------
  // Flags and optional projections

  /** `isDeprecated`: false unless `deprecated` is set to true. */
  function IsDeprecated(op: Operation): (r: bool)
    ensures r <==> op.data.deprecated == Some(true)
  {
    op.data.deprecated.GetOr(false)
  }

  /** `requiresEndpointDiscovery`: false unless `endpointdiscovery.required` is true. */
  function RequiresEndpointDiscovery(op: Operation): (r: bool)
    ensures r <==> op.data.endpointDiscovery == Some(EndpointDiscoverySpec(Some(true)))
  {
    match op.data.endpointDiscovery
    case Some(d) => d.required.GetOr(false)
    case None => false
  }

  /** `usesEndpointDiscovery`: the `endpointdiscovery` key is present, whatever it holds. */
  function UsesEndpointDiscovery(op: Operation): (r: bool)
    ensures r <==> op.data.endpointDiscovery.Some?
  {
    op.data.endpointDiscovery != None
  }

  /** `isEndpointOperation`: false unless `endpointoperation` is set to true. */
  function IsEndpointOperation(op: Operation): (r: bool)
    ensures r <==> op.data.endpointOperation == Some(true)
  {
    op.data.endpointOperation.GetOr(false)
  }

  /** `getHostPrefix`: `endpoint.hostPrefix`, or nothing. */
  function GetHostPrefix(op: Operation): (r: Option<string>)
    ensures r.Some? <==> op.data.endpoint.Some? && op.data.endpoint.value.hostPrefix.Some?
    ensures r.Some? ==> r.value == op.data.endpoint.value.hostPrefix.value
  {
    match op.data.endpoint
    case Some(e) => e.hostPrefix
    case None => None
  }

  /** `getInputLocation`: `input.locationName`, or nothing. */
  function GetInputLocation(op: Operation): (r: Option<string>)
    ensures r.Some? <==> op.data.input.Some? && op.data.input.value.locationName.Some?
    ensures r.Some? ==> r.value == op.data.input.value.locationName.value
  {
    match op.data.input
    case Some(i) => i.locationName
    case None => None
  }

  /** `getInputXmlNamespaceUri`: `input.xmlNamespace.uri`, or nothing. */
  function GetInputXmlNamespaceUri(op: Operation): (r: Option<string>)
    ensures r.Some? <==>
      op.data.input.Some? && op.data.input.value.xmlNamespace.Some? &&
      op.data.input.value.xmlNamespace.value.uri.Some?
    ensures r.Some? ==> r.value == op.data.input.value.xmlNamespace.value.uri.value
  {
    match op.data.input
    case Some(i) =>
      (match i.xmlNamespace
       case Some(x) => x.uri
       case None => None)
    case None => None
  }

  /** `getDocumentation`: `_documentation`, or nothing. */
  function GetDocumentation(op: Operation): (r: Option<string>)
    ensures r.Some? <==> op.data.documentation.Some?
    ensures r.Some? ==> r.value == op.data.documentation.value
  {
    op.data.documentation
  }

  /** `getUserGuideDocumentationUrl`: `documentationUrl`, or nothing. */
  function GetUserGuideDocumentationUrl(op: Operation): (r: Option<string>)
    ensures r.Some? <==> op.data.documentationUrl.Some?
    ensures r.Some? ==> r.value == op.data.documentationUrl.value
  {
    op.data.documentationUrl
  }

  /** `getHttpRequestUri`: `http.requestUri`, or nothing. */
  function GetHttpRequestUri(op: Operation): (r: Option<string>)
    ensures r.Some? <==> op.data.http.requestUri.Some?
    ensures r.Some? ==> r.value == op.data.http.requestUri.value
  {
    op.data.http.requestUri
  }

  /** Endpoint discovery that is required is also used; the converse fails:
      a present `endpointdiscovery` whose `required` is false or absent is
      used but not required. */
  lemma EndpointDiscoveryFlags(op: Operation)
    ensures RequiresEndpointDiscovery(op) ==> UsesEndpointDiscovery(op)
    ensures op.data.endpointDiscovery.Some? && op.data.endpointDiscovery.value.required != Some(true) ==>
      UsesEndpointDiscovery(op) && !RequiresEndpointDiscovery(op)
  {
  }

  /** A record that sets none of the optional keys gets every documented
      default: no output, no errors, a synthesized input, all flags false and
      no optional projections. */
  lemma AbsentKeysDefaults(op: Operation)
    requires op.data.input.None? && op.data.output.None? && op.data.errors.None?
    requires op.data.deprecated.None? && op.data.endpointDiscovery.None?
    requires op.data.endpointOperation.None? && op.data.endpoint.None?
    requires op.data.documentation.None? && op.data.documentationUrl.None?
    requires op.data.http.requestUri.None?
    ensures GetOutput(op) == Ok(None)
    ensures Errors(op) == Ok([])
    ensures GetInput(op).Ok? && GetInput(op).value.name == op.name + "Request"
    ensures GetHttpMethod(op) == Ok(op.data.http.verb)
    ensures !IsDeprecated(op) && !RequiresEndpointDiscovery(op)
    ensures !UsesEndpointDiscovery(op) && !IsEndpointOperation(op)
    ensures GetHostPrefix(op).None? && GetInputLocation(op).None? && GetInputXmlNamespaceUri(op).None?
    ensures GetDocumentation(op).None? && GetUserGuideDocumentationUrl(op).None? && GetHttpRequestUri(op).None?
  {
  }

  // ---------------------------------------------------------------------------
  // Documentation links

  const ReferencePagePrefix: string := "/API_"
  const ReferencePageSuffix: string := ".html"

  /** `getApiReferenceDocumentationUrl`: the service's API reference base URL
      (given here as `baseUrl`) joined with the page of the record's `name`. */
  function GetApiReferenceDocumentationUrl(op: Operation, baseUrl: string): (r: string)
    ensures |r| == |baseUrl| + |ReferencePagePrefix| + |op.data.schemaName| + |ReferencePageSuffix|
    ensures r[..|baseUrl|] == baseUrl
    ensures r[|r| - |ReferencePageSuffix|..] == ReferencePageSuffix
  {
    baseUrl + ReferencePagePrefix + op.data.schemaName + ReferencePageSuffix
  }

  /** The schema name can be read back out of the reference URL: it sits
      between the base URL and the fixed prefix and suffix. */
  lemma ApiReferenceUrlRoundTrip(op: Operation, baseUrl: string)
    ensures var url := GetApiReferenceDocumentationUrl(op, baseUrl);
      var start := |baseUrl| + |ReferencePagePrefix|;
      url[|baseUrl|..start] == ReferencePagePrefix &&
      url[start..|url| - |ReferencePageSuffix|] == op.data.schemaName
  {
    var url := GetApiReferenceDocumentationUrl(op, baseUrl);
    var start := |baseUrl| + |ReferencePagePrefix|;
    assert url == (baseUrl + ReferencePagePrefix) + op.data.schemaName + ReferencePageSuffix;
  }

  /** Under one base URL, two operations share a reference URL exactly when
      their records share a `name`. */
  lemma ApiReferenceUrlInjective(op1: Operation, op2: Operation, baseUrl: string)
    ensures GetApiReferenceDocumentationUrl(op1, baseUrl) == GetApiReferenceDocumentationUrl(op2, baseUrl)
      <==> op1.data.schemaName == op2.data.schemaName
  {
    if GetApiReferenceDocumentationUrl(op1, baseUrl) == GetApiReferenceDocumentationUrl(op2, baseUrl) {
      ApiReferenceUrlRoundTrip(op1, baseUrl);
      ApiReferenceUrlRoundTrip(op2, baseUrl);
    }
  }
}
