# Definition layer of the AWS client code generator, in Dafny

This project models the definition layer of a PHP code generator for AWS service
clients. That layer holds the read-only views a renderer uses over a service's raw
API description. Three pieces are modelled:

- **Shape** (`Shapes`, from `Definition/Shape.php`). A shape is a named schema node.
  The factory looks at the raw `type` tag and builds a structure, list, map or
  plain shape. The accessors read the shape's name, tag, documentation and raw
  attributes.
- **Operation** (`Operations`, from `src/Definition/Operation.php`). These are checked
  views over one operation record:
  - the output and input shapes, which must be structures;
  - the declared errors, which must be exceptions, with duplicates dropped and
    the result sorted by name;
  - the HTTP method, which refuses the legacy `input.method` override, and
    whether the request has a body;
  - flag and optional projections with fixed defaults;
  - the API reference URL.
- **Waiter acceptor** (`Waiters`, from `src/Definition/WaiterAcceptor.php`). The
  factory picks the error-code specialisation for the `error` matcher and the
  generic acceptor for every other matcher. Four projections read the record.

Supporting modules:

- `Base` holds `Option`, `Result` and the raw `Value` of a decoded record. A PHP
  `null` counts as an absent key.
- `Strings` holds:
  - the byte-wise string order PHP uses to compare non-numeric strings;
  - sorting with duplicates removed, which is what `ksort` does to the keys of
    the collected errors;
  - the decimal form PHP gives an integer cast to a string.

Modelling choices:

- The shape locator closure becomes an explicit `Locator`, a finite map from
  shape name to `Shape`. A name missing from the map fails with `UnknownShape`.
- A thrown `InvalidArgumentException` becomes an `Err` carrying a `DefinitionError`:
  - `SchemaViolation` says which operation failed and which role: output, input,
    or error reference;
  - `UnsupportedLegacySchema` is the refused `input.method` override.
- The PHP `instanceof` tests become predicates on the variant tag.
  - `IsException` holds for the exception variant only.
  - `IsStructure` holds for structures and exceptions. An exception is a
    structure that stands for an error response.
  - The class declaration of `ExceptionShape` is not part of this model.
- The factory never builds an exception shape. Such shapes only come out of the
  locator.
- `getErrors` has two forms.
  - `Operations.Errors` is a declarative reference. It fails with the error of
    the first rejected name in declaration order. Otherwise it returns the
    located shapes of the distinct declared names in ascending order.
  - `Operations.GetErrors` follows the PHP loop step by step: skip a name
    already collected, locate it, check it, collect it under its name, then
    `ksort` and `array_values`. It is proved equal to `Errors`.
- Errors are deduplicated and sorted by the declared reference name, not by
  `Shape::getName`. Sorting by shape name therefore needs a locator that files
  each shape under its own name (`ConsistentLocator`).
- The service's `getApiReferenceUrl()` is passed in as the parameter `baseUrl`.

Two behaviours of the code worth stating outright:

- `getState` returns the stored state unchecked. The `STATE_*` constants
  (`src/Definition/WaiterAcceptor.php:16-18`) are never enforced
  (`Waiters.StateNotValidated`).
- Which `getErrors` failure is reported depends on declaration order: the first
  rejected name wins (`Operations.ErrorsReportFirstRejected`). The success value,
  and whether the call fails at all, do not depend on it
  (`Operations.ErrorsIgnoreDeclarationOrder`).

## Model

| member | source | states |
|---|---|---|
| `Shapes.Create` | Definition/Shape.php:33-57 | the factory builds a structure for tag `structure`, a list for `list`, a map for `map` and a plain shape for every other tag, so it never fails; it never builds an exception; it keeps the name and record it was given |
| `Shapes.Get` | Definition/Shape.php:74-77 | `get(k)` yields a value exactly when the record has key `k`, and that value is the record's entry |
| `Shapes.CreateAccessors` | Definition/Shape.php:52-77 | a created shape reports the name it was created under, the tag it was created from, exactly its record's attributes, and `_documentation` as its documentation (no default) |
| `Shapes.CreatedKindAgreesWithType` | Definition/Shape.php:35-72 | a created shape's variant agrees with `getType`: structure/list/map shapes report their own tag, and plain shapes report a tag outside those three |
| `Shapes.SameTagSameKind` | Definition/Shape.php:35-50 | the variant depends on the tag alone: two records give the same variant exactly when their tags are equal or both are outside the three named tags |
| `Waiters.Create` | src/Definition/WaiterAcceptor.php:37-54 | the error specialisation exactly when the matcher is `error`, the generic acceptor for every other matcher; the record is stored unchanged and creation never fails |
| `Waiters.CreateProjections` | src/Definition/WaiterAcceptor.php:56-74 | a created acceptor reports the given matcher and state verbatim, and `expected`/`argument` as PHP's string cast of the stored value: a missing field as "", an integer in canonical decimal form that reads back as the same integer, `true` as "1", `false` as "" |
| `Waiters.CastToString` | src/Definition/WaiterAcceptor.php:61-69 | PHP's `(string)` cast: a string unchanged, an integer as a canonical decimal numeral that parses back to it, `true` as "1" and `false` as "", any array as "Array" |
| `Waiters.CastIntInjective` | src/Definition/WaiterAcceptor.php:61-69 | the string form of integer `expected`/`argument` values keeps distinct integers distinct |
| `Waiters.StateNotValidated` | src/Definition/WaiterAcceptor.php:37-74 | a record whose state is none of the declared `STATE_*` constants still yields an acceptor, and `getState` reports that undeclared state |
| `Waiters.PendingStateAccepted` | src/Definition/WaiterAcceptor.php:37-74 | a `status` acceptor with state "pending", which is no declared constant, is created and reports "pending" |
| `Waiters.PathAcceptorExample` | src/Definition/WaiterAcceptor.php:37-74 | the record `{path, "available", "State", success}` gives a generic acceptor that reports those four values |
| `Strings.SortDistinct` | src/Definition/Operation.php:133-135 | the keys `ksort` leaves: strictly ascending in byte order, no duplicates, exactly the strings of the input, never more of them than the input has |
| `Strings.SortedUnique` | src/Definition/Operation.php:133-135 | two strictly ascending key lists with the same elements are equal, so the sorted order is fully determined |
| `Strings.SortDistinctIgnoresOrder` | src/Definition/Operation.php:133-135 | sorting away duplicates depends only on which strings occur, not on their order or repetition |
| `Strings.DecimalString` | src/Definition/WaiterAcceptor.php:61-69 | the string form of an integer is a canonical decimal numeral (no leading zero, no "-0") that starts with a minus sign exactly when the integer is negative |
| `Strings.DecimalRoundTrip` | src/Definition/WaiterAcceptor.php:61-69 | an integer's decimal form is a well-formed decimal numeral that parses back to the same integer |
| `Operations.Locate` | src/Definition/Operation.php:125 | the locator yields the shape filed under a name, and fails with `UnknownShape` naming it when the service defines no such shape |
| `Operations.GetOutput` | src/Definition/Operation.php:100-113 | no output is returned exactly when `output.shape` is absent; a returned output is always structure-kinded; a declared output is returned when it is a structure, and otherwise the call fails with `UnknownShape` or with `SchemaViolation` on the output role |
| `Operations.FirstRejected` | src/Definition/Operation.php:121-128 | finds the first declared error name that is unknown or not an exception: all earlier names are acceptable; none is found exactly when every name is acceptable |
| `Operations.Errors` | src/Definition/Operation.php:118-136 | on success every returned shape is an exception, each is the locator's shape for some declared name, the locator's shape for every declared name is among them, and there are no more shapes than declared names; on failure the error belongs to a declared name that is unknown or not an exception |
| `Operations.GetErrors` | src/Definition/Operation.php:118-136 | the loop as written (skip a name already collected, locate, check exception-ness, collect under the name, `ksort`, `array_values`) computes exactly the reference result `Errors` |
| `Operations.ErrorsFailIff` | src/Definition/Operation.php:121-128 | `getErrors` fails if and only if some declared error name is unknown or not an exception shape |
| `Operations.ErrorsReportFirstRejected` | src/Definition/Operation.php:121-128 | the reported failure belongs to the first rejected name in declaration order, and every name before it was accepted |
| `Operations.ErrorsSortedAndDistinct` | src/Definition/Operation.php:120-135 | with a locator that files shapes under their own names, a successful result is strictly ascending by shape name, holds no two shapes with the same name, and holds a shape for each declared error name and for no other name, each being exactly the locator's shape for its name |
| `Operations.ErrorsIgnoreDeclarationOrder` | src/Definition/Operation.php:120-135 | two operations declaring the same error names, in any order and any number of times, both succeed or both fail, and on success return the same list |
| `Operations.DuplicateErrorExample` | src/Definition/Operation.php:121-135 | declaring the exception `NoSuchBucket` twice yields exactly one `NoSuchBucket` shape |
| `Operations.GetInputShape` | src/Definition/Operation.php:213-227 | a declared `input.shape` is located; without one, the shape is a fresh structure named `<operation>Request` whose `members` and `required` are empty |
| `Operations.GetInput` | src/Definition/Operation.php:138-147 | a returned input is always structure-kinded; a declared input is returned when it is a structure, and otherwise the call fails with `UnknownShape` or with `SchemaViolation` on the input role |
| `Operations.UndeclaredInputIsEmptyRequest` | src/Definition/Operation.php:219-226 | with no declared input, `getInput` never fails and returns a structure named `<operation>Request`, tagged `structure`, with empty members and empty required |
| `Operations.GetHttpMethod` | src/Definition/Operation.php:174-181 | fails with `UnsupportedLegacySchema` exactly when `input.method` is set; otherwise returns `http.method` unchanged |
| `Operations.HasBody` | src/Definition/Operation.php:183-186 | fails exactly when `getHttpMethod` fails, with the same error; otherwise true if and only if the method is `PUT` or `POST` |
| `Operations.LegacyMethodRefused` | src/Definition/Operation.php:174-186 | whatever `http.method` holds, a set `input.method` makes both `getHttpMethod` and `hasBody` fail with `UnsupportedLegacySchema` |
| `Operations.IsDeprecated` | src/Definition/Operation.php:188-191 | true exactly when `deprecated` is present and true; absent means false |
| `Operations.RequiresEndpointDiscovery` | src/Definition/Operation.php:193-196 | true exactly when `endpointdiscovery.required` is present and true |
| `Operations.UsesEndpointDiscovery` | src/Definition/Operation.php:198-201 | true exactly when the `endpointdiscovery` key is present, whatever it holds |
| `Operations.IsEndpointOperation` | src/Definition/Operation.php:203-206 | true exactly when `endpointoperation` is present and true |
| `Operations.GetHostPrefix` | src/Definition/Operation.php:208-211 | `endpoint.hostPrefix` when both keys are present, nothing otherwise |
| `Operations.GetInputLocation` | src/Definition/Operation.php:149-152 | `input.locationName` when both keys are present, nothing otherwise |
| `Operations.GetInputXmlNamespaceUri` | src/Definition/Operation.php:154-157 | `input.xmlNamespace.uri` when all three keys are present, nothing otherwise |
| `Operations.GetDocumentation` | src/Definition/Operation.php:80-83 | `_documentation` when present, nothing otherwise |
| `Operations.GetUserGuideDocumentationUrl` | src/Definition/Operation.php:159-162 | `documentationUrl` when present, nothing otherwise |
| `Operations.GetHttpRequestUri` | src/Definition/Operation.php:169-172 | `http.requestUri` when present, nothing otherwise |
| `Operations.EndpointDiscoveryFlags` | src/Definition/Operation.php:193-201 | required endpoint discovery is always used; a present `endpointdiscovery` whose `required` is false or absent is used but not required |
| `Operations.AbsentKeysDefaults` | src/Definition/Operation.php:100-211 | a record with none of the optional keys gets every documented default: no output, no errors, the synthesized `<operation>Request` input, `http.method`, all flags false, no optional projections |
| `Operations.GetApiReferenceDocumentationUrl` | src/Definition/Operation.php:164-167 | the URL starts with the service's reference base URL, ends in `.html`, and is exactly as long as base, `/API_`, the record's `name` and `.html` together |
| `Operations.ApiReferenceUrlRoundTrip` | src/Definition/Operation.php:164-167 | the record's `name` can be read back from the URL: `/API_` follows the base, and `name` sits between it and `.html` |
| `Operations.ApiReferenceUrlInjective` | src/Definition/Operation.php:164-167 | under one base URL, two operations share a reference URL exactly when their records share a `name` |

## Left out

- `Operation::create`, `getName`, `getMethodName`, `getApiVersion`, `getService`, `getPagination` and `getExample` are left out. They only read or store fields. `_method_name` and `_apiVersion` are added by the loader, and `ServiceDefinition`, `Pagination` and `Example` are not part of this model. The operation's name appears as the `name` field of `Operation`.
- The locator's internals are not modelled: memoisation, cycle safety and shared identity of resolved shapes. The locator is an abstract finite map.
- The `resultWrapper` hint passed to the locator by `getOutput` is kept in the record but has no effect here. Its effect lives inside the locator.
- `StructureShape`, `ListShape`, `MapShape`, `ExceptionShape` and `ErrorWaiterAcceptor` are opaque variant tags. Their members, element and key/value shape references, and error codes are not part of this model.
- The closure passed to the factory is not modelled. That covers the locator argument of `Shape::create` and `WaiterAcceptor::create`, and the ignored fourth argument at `Operation.php:219-226`. The factory only stores these closures for the unseen subclasses.
- `Shapes.Create` requires the raw record to carry a string `type` tag. A missing tag raises PHP's undefined-index warning, and a non-string tag goes through PHP's loose `switch` comparison. Neither case is modelled.
- `Operations.GetHttpMethod` takes `http.method` as always present, because it is a required field of the record. Reading a missing `http.method` is an undefined-index access in PHP and is not modelled.
- `ksort` on numeric-string keys is not modelled. PHP turns integer-like keys into integers, and its default comparison compares two numeric strings (such as "1.5" or "1e3") as numbers. Keys are compared here as strings, byte by byte.
- Strings are modelled as sequences of Unicode characters compared by code point. For UTF-8 text, that order is the same as PHP's byte-wise order.
- `Waiters.CreateProjections` does not model floats in the `(string)` cast, nor the warnings PHP raises when it turns an array into "Array" or reads a missing `expected`/`argument` key as `null`. Integers are unbounded rather than 64-bit. Strings, integers, booleans, arrays and missing fields are covered.
- The declared `?string` return types of `Shape::get` and `Shape::getDocumentation` are not enforced. `Shapes.Get` and `Shapes.GetDocumentation` return the raw value whatever its kind, where PHP would raise a `TypeError` for a non-string.
- `src/File/FileDumper.php` is left out. It writes files, runs `php -l` in a subprocess and renames files: I/O with no pure behaviour to state.
- The text of each exception message is not modelled. The error value keeps the operation name, the role, and the offending shape reference name.
