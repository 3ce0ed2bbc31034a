/** The refs named inside REST bodies, held to the same Git policy as a push. */
module RestBodies {
  import opened Policies
  import opened GitRefs
  import opened Strings

  datatype JsonField = JsonString(text: string) | JsonNull | JsonOther

  /** A JSON body is its top-level fields; a JSON null decodes to none. */
  datatype Body = Absent | Unreadable | NotAnObject | Fields(fields: map<string, JsonField>)

  datatype BodyVerdict = Passed | InvalidBody | RefDenied

  /** Where an endpoint keeps the ref it writes to. */
  datatype RefSource =
    | Unchecked
    | InPath(ref: string)
    | InBody(field: string)
    | NewRelease
    | ReleaseEdit
    | PullHead

  function RefSourceOf(verb: string, path: seq<string>): RefSource {
    if path == [] then Unchecked
    else if path[0] == "actions" then
      if |path| < 4 || path[1] != "workflows" || path[3] != "dispatches" || verb != "POST" then Unchecked
      else InBody("ref")
    else if path[0] == "contents" then
      if verb != "PUT" && verb != "DELETE" then Unchecked else InBody("branch")
    else if path[0] == "deployments" then
      if |path| != 1 || verb != "POST" then Unchecked else InBody("ref")
    else if path[0] == "releases" then
      if |path| == 1 && verb == "POST" then NewRelease
      else if |path| == 2 && verb == "PATCH" then ReleaseEdit
      else Unchecked
    else if path[0] == "git" then
      if |path| == 2 && path[1] == "refs" && verb == "POST" then InBody("ref")
      else if |path| >= 3 && path[1] == "refs" && verb == "PATCH" then InPath("refs/" + Join(path[2..], "/"))
      else Unchecked
    else if path[0] == "pulls" then
      if |path| != 1 || verb != "POST" then Unchecked else PullHead
    else Unchecked
  }

  function RefField(source: RefSource): string {
    match source
    case InBody(field) => field
    case NewRelease => "target_commitish"
    case ReleaseEdit => "target_commitish"
    case PullHead => "head"
    case _ => ""
  }

  function AuthorizeRestBody(
      verb: string, path: seq<string>, body: Body, defaultBranch: string, policy: GitPolicy): BodyVerdict {
    var source := RefSourceOf(verb, path);
    if source.Unchecked? then Passed
    else if source.InPath? then
      if AuthorizeRestRef(source.ref, defaultBranch, policy) then Passed else RefDenied
    else if !body.Fields? then InvalidBody
    else if source.ReleaseEdit? && "tag_name" !in body.fields && "target_commitish" !in body.fields then Passed
    else if (source.NewRelease? || source.ReleaseEdit?) && !policy.tags then RefDenied
    else if source.PullHead? && "head_repo" in body.fields then RefDenied
    else
      var field := RefField(source);
      if field !in body.fields && source.PullHead? then InvalidBody
      else if field in body.fields && (body.fields[field].JsonOther? || body.fields[field] == JsonString(""))
      then InvalidBody
      else
        // A null leaves the ref at the default branch; an empty default branch is then refused.
        var given := field in body.fields && body.fields[field].JsonString?;
        var ref := if given then body.fields[field].text else defaultBranch;
        if field in body.fields && ref == "" then InvalidBody
        else if source.PullHead? then
          if ContainsControl(ref) || "refs/" <= ref then RefDenied else Passed
        else if AuthorizeRestRef(ref, defaultBranch, policy) then Passed
        else RefDenied
  }
}
