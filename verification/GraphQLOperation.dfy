/**
 * The operation gate in front of the selection checker: one registered query, every root bound to
 * the capability's repository through two variables, and those variables overwritten before the
 * request is forwarded.
 */
module GraphQLOperation {
  import opened Wrappers
  import opened GraphQLSelections
  import opened GraphQLFields

  datatype Operation = Query | Mutation | Subscription

  datatype OperationDefinition = OperationDefinition(
    operation: Operation, name: string, variables: set<string>, directives: nat, selections: seq<Selection>)

  datatype QueryDocument = QueryDocument(operations: seq<OperationDefinition>, fragments: seq<Fragment>)

  datatype Family =
    | RepositoryFamily(ownerVariable: string, nameVariable: string)
    | SchemaFamily(schemaType: string)

  datatype Json = JsonString(text: string) | JsonOther(text: string)

  /** A decoded request; `document` is None when the query does not parse within the token limit. */
  datatype Payload = Payload(document: Option<QueryDocument>, variables: map<string, Json>, operationName: string)

  datatype Target = Target(owner: string, name: string)

  datatype Denial = BadRequest | UnknownOperation | PolicyDenied

  function FamilyOf(operationName: string): Option<Family> {
    if operationName in {"IssueByNumber", "IssueList", "LabelList", "PullRequestByNumber", "PullRequestForBranch",
                         "PullRequestList"} then
      Some(RepositoryFamily("owner", "repo"))
    else if operationName in {"IssueNodeID", "IssueRepositoryInfo", "IssueTemplates", "PullRequestTemplates",
                              "RepositoryInfo", "RepositoryIssueTypes", "RepositoryLabelList",
                              "RepositoryMilestoneList", "RepositoryReleaseList"} then
      Some(RepositoryFamily("owner", "name"))
    else if operationName == "Release_fields" then Some(SchemaFamily("Release"))
    else None
  }

  /** The first argument of that name, as a list lookup returns it. */
  function ArgumentNamed(arguments: seq<Argument>, name: string): Option<Argument> {
    if arguments == [] then None
    else if arguments[0].name == name then Some(arguments[0])
    else ArgumentNamed(arguments[1..], name)
  }

  predicate IsVariable(argument: Option<Argument>, expected: string) {
    argument.Some? && argument.value.value == Some(Variable(expected))
  }

  predicate BoundRoot(selection: Selection, family: Family)
    requires family.RepositoryFamily?
  {
    && selection.Field? && selection.name == "repository"
    && IsVariable(ArgumentNamed(selection.arguments, "owner"), family.ownerVariable)
    && IsVariable(ArgumentNamed(selection.arguments, "name"), family.nameVariable)
  }

  predicate ValidSchemaProbe(operation: OperationDefinition, schemaType: string) {
    && operation.variables == {} && operation.directives == 0 && |operation.selections| == 1
    && var root := operation.selections[0];
    && root.Field? && root.name == "__type" && root.alias == schemaType && |root.arguments| == 1
    && root.directives == 0 && |root.selections| == 1
    && var typeName := ArgumentNamed(root.arguments, "name");
    && typeName.Some? && typeName.value.value == Some(StringValue(schemaType))
    && var fields := root.selections[0];
    && fields.Field? && fields.name == "fields" && fields.alias == fields.name && |fields.arguments| == 0
    && fields.directives == 0 && |fields.selections| == 1
    && var name := fields.selections[0];
    && name.Field? && name.name == "name" && name.alias == name.name && |name.arguments| == 0
    && name.directives == 0 && |name.selections| == 0
  }

  /** The probe accepts one query text only: the field names of one schema type. */
  lemma SchemaProbeIsOneQuery(operation: OperationDefinition, schemaType: string)
    ensures ValidSchemaProbe(operation, schemaType) <==>
      && operation.variables == {} && operation.directives == 0
      && operation.selections ==
           [Field(schemaType, "__type", [Argument("name", Some(StringValue(schemaType)))], 0,
                  [Field("fields", "fields", [], 0, [Field("name", "name", [], 0, [])])])]
  {
    var probe := [Field(schemaType, "__type", [Argument("name", Some(StringValue(schemaType)))], 0,
                        [Field("fields", "fields", [], 0, [Field("name", "name", [], 0, [])])])];
    assert ArgumentNamed(probe[0].arguments, "name") == Some(probe[0].arguments[0]);
    if ValidSchemaProbe(operation, schemaType) {
      var root := operation.selections[0];
      var fields := root.selections[0];
      assert root.arguments == [root.arguments[0]] && root.arguments[1..] == [];
      assert root.arguments[0].name == "name" by {
        assert ArgumentNamed([], "name") == None;
      }
      assert root.arguments[0] == Argument("name", Some(StringValue(schemaType)));
      assert fields.arguments == [] && fields.selections[0].arguments == [] && fields.selections[0].selections == [];
      assert fields.selections == [Field("name", "name", [], 0, [])];
      assert root.selections == [fields];
      assert operation.selections == [root];
    }
  }

  method ValidOperation(document: QueryDocument, operation: OperationDefinition, family: Family) returns (valid: bool)
    ensures valid <==>
      && operation.operation.Query?
      && (family.SchemaFamily? ==> ValidSchemaProbe(operation, family.schemaType))
      && (family.RepositoryFamily? ==>
            && family.ownerVariable in operation.variables && family.nameVariable in operation.variables
            && operation.selections != []
            && forall i :: 0 <= i < |operation.selections| ==>
                 && BoundRoot(operation.selections[i], family)
                 && Accepts(document.fragments, TABLES, operation.selections[i].selections, false, {}))
  {
    if !operation.operation.Query? { return false; }
    if family.SchemaFamily? { return ValidSchemaProbe(operation, family.schemaType); }
    if family.ownerVariable !in operation.variables || family.nameVariable !in operation.variables { return false; }
    if |operation.selections| == 0 { return false; }
    for i := 0 to |operation.selections|
      invariant forall k :: 0 <= k < i ==>
        && BoundRoot(operation.selections[k], family)
        && Accepts(document.fragments, TABLES, operation.selections[k].selections, false, {})
    {
      if !BoundRoot(operation.selections[i], family) { return false; }
      var checker := new SelectionChecker();
      var accepted := checker.ValidSelections(document.fragments, TABLES, operation.selections[i].selections, false);
      if !accepted { return false; }
    }
    return true;
  }

  /** What an argument evaluates to under the forwarded variables. */
  function Evaluated(arguments: seq<Argument>, name: string, variables: map<string, Json>): Option<Json> {
    var argument := ArgumentNamed(arguments, name);
    if argument.None? || argument.value.value.None? then None
    else
      match argument.value.value.value
      case Variable(v) => if v in variables then Some(variables[v]) else None
      case StringValue(s) => Some(JsonString(s))
      case OtherValue(s) => Some(JsonOther(s))
  }

  /** A root field that can only reach the target repository, through reviewed fields alone. */
  ghost predicate ContainedRoot(
      fragments: seq<Fragment>, root: Selection, variables: map<string, Json>, target: Target) {
    && root.Field? && root.name == "repository"
    && Evaluated(root.arguments, "owner", variables) == Some(JsonString(target.owner))
    && Evaluated(root.arguments, "name", variables) == Some(JsonString(target.name))
    && Admissible(fragments, TABLES, root.selections, false)
  }

  /** A readable document with a single operation, named, and under no other name in the request. */
  predicate NamesOneOperation(body: Option<Payload>) {
    && body.Some? && body.value.document.Some? && |body.value.document.value.operations| == 1
    && body.value.document.value.operations[0].name != ""
    && body.value.operationName in {"", body.value.document.value.operations[0].name}
  }

  /** The requests that pass: one named operation of a registered family, in that family's shape. */
  ghost predicate Forwardable(body: Option<Payload>) {
    && body.Some? && body.value.document.Some? && |body.value.document.value.operations| == 1
    && var fragments := body.value.document.value.fragments;
    && var operation := body.value.document.value.operations[0];
    && operation.name != "" && (body.value.operationName == "" || body.value.operationName == operation.name)
    && operation.operation.Query? && FamilyOf(operation.name).Some?
    && match FamilyOf(operation.name).value
       case SchemaFamily(schemaType) => ValidSchemaProbe(operation, schemaType) && body.value.variables == map[]
       case RepositoryFamily(owner, name) =>
         && owner in operation.variables && name in operation.variables && operation.selections != []
         && forall i :: 0 <= i < |operation.selections| ==>
              && BoundRoot(operation.selections[i], FamilyOf(operation.name).value)
              && Admissible(fragments, TABLES, operation.selections[i].selections, false)
  }

  /** The client's variables, with the two that name the repository overwritten. */
  method BindTarget(given: map<string, Json>, owner: string, name: string, target: Target)
    returns (variables: map<string, Json>)
    ensures variables.Keys == given.Keys + {owner, name}
    ensures variables[name] == JsonString(target.name)
    ensures owner != name ==> variables[owner] == JsonString(target.owner)
    ensures forall v :: v in given && v != owner && v != name ==> variables[v] == given[v]
  {
    variables := map[];
    var pending := given.Keys;
    while pending != {}
      invariant pending <= given.Keys
      invariant variables.Keys == given.Keys - pending
      invariant forall v :: v in variables ==> variables[v] == given[v]
      decreases pending
    {
      var name :| name in pending;
      variables := variables[name := given[name]];
      pending := pending - {name};
    }
    variables := variables[owner := JsonString(target.owner)];
    variables := variables[name := JsonString(target.name)];
  }

  /** A request is forwarded only as one registered query. Whatever variables the client sent, each
      root of a repository query then evaluates to the capability's own repository and stays within
      the reviewed fields; the client's other variables are passed on untouched. */
  method AuthorizeGraphQL(body: Option<Payload>, target: Target) returns (r: Result<Payload, Denial>)
    requires body.Some? && body.value.document.Some? ==> WellNamed(body.value.document.value.fragments)
    ensures r.Ok? ==>
      && body.Some? && body.value.document.Some? && |body.value.document.value.operations| == 1
      && r.value.document == body.value.document && r.value.operationName == body.value.operationName
      && var operation := body.value.document.value.operations[0];
      && operation.operation.Query? && FamilyOf(operation.name).Some?
      && (r.value.operationName == "" || r.value.operationName == operation.name)
      && match FamilyOf(operation.name).value
         case SchemaFamily(schemaType) =>
           ValidSchemaProbe(operation, schemaType) && r.value == body.value && r.value.variables == map[]
         case RepositoryFamily(owner, name) =>
           && operation.selections != []
           && (forall root :: root in operation.selections ==>
                 ContainedRoot(body.value.document.value.fragments, root, r.value.variables, target))
           && r.value.variables.Keys == body.value.variables.Keys + {owner, name}
           && forall v :: v in body.value.variables && v != owner && v != name ==>
                r.value.variables[v] == body.value.variables[v]
    ensures r.Ok? <==> Forwardable(body)
    ensures r == Err(BadRequest) <==> !NamesOneOperation(body)
    ensures r == Err(UnknownOperation) <==>
            NamesOneOperation(body) && FamilyOf(body.value.document.value.operations[0].name).None?
  {
    if body.None? || body.value.document.None? || |body.value.document.value.operations| != 1 {
      return Err(BadRequest);
    }
    var payload := body.value;
    var document := payload.document.value;
    var operation := document.operations[0];
    if operation.name == "" || (payload.operationName != "" && payload.operationName != operation.name) {
      return Err(BadRequest);
    }
    var registered := FamilyOf(operation.name);
    if registered.None? { return Err(UnknownOperation); }
    var family := registered.value;
    if family.SchemaFamily? && payload.variables != map[] { return Err(PolicyDenied); }
    var valid := ValidOperation(document, operation, family);
    forall i | 0 <= i < |operation.selections| && operation.selections[i].Field?
      ensures Accepts(document.fragments, TABLES, operation.selections[i].selections, false, {})
         <==> Admissible(document.fragments, TABLES, operation.selections[i].selections, false)
    {
      CheckerAgreesWithInlining(document.fragments, TABLES, operation.selections[i].selections, false);
    }
    if !valid { return Err(PolicyDenied); }
    if family.SchemaFamily? { return Ok(payload); }

    var variables := BindTarget(payload.variables, family.ownerVariable, family.nameVariable, target);
    forall root | root in operation.selections
      ensures ContainedRoot(document.fragments, root, variables, target)
    {
      var i :| 0 <= i < |operation.selections| && operation.selections[i] == root;
    }
    return Ok(payload.(variables := variables));
  }
}
