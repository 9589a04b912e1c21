/** The `HTTP_CHECK` definition read from a container's environment:
    accepted only in the form `GET <path>`. */
module HttpCheck {
  import opened Errors
  import opened Strings

  const CheckEnvName := "HTTP_CHECK"

  /** Split on a single space; the first field must be exactly `GET` and the
      second field is the path that the health gate requests. */
  function ParseHttpCheck(containerName: string, definition: string): Result<string> {
    var parts := Split(definition, ' ');
    if |parts| < 2 || parts[0] != "GET" then Err(BadHttpCheck(containerName, definition))
    else Ok(parts[1])
  }

  /** A definition is accepted exactly when it starts with `GET` and a space;
      the path is then the text after that space up to the next space. */
  lemma HttpCheckAcceptedIffGetPrefix(containerName: string, definition: string)
    ensures ParseHttpCheck(containerName, definition).Ok? <==> HasPrefix(definition, "GET ")
    ensures ParseHttpCheck(containerName, definition).Ok? ==>
      ParseHttpCheck(containerName, definition).value == Split(definition[4..], ' ')[0]
    ensures ParseHttpCheck(containerName, definition).Err? ==>
      ParseHttpCheck(containerName, definition).error == BadHttpCheck(containerName, definition)
  {
    var parts := Split(definition, ' ');
    if HasPrefix(definition, "GET ") {
      assert definition == "GET" + [' '] + definition[4..];
      SplitAtFirstSeparator("GET", definition[4..], ' ');
    }
    if |parts| >= 2 && parts[0] == "GET" {
      JoinSplit(definition, ' ');
      assert definition == "GET" + [' '] + Join(parts[1..], ' ');
      assert HasPrefix(definition, "GET ");
    }
  }

  /** The accepted path is space-free and is the whole text between the
      first space and the next space (or the end of the definition). */
  lemma CheckPathIsSecondField(containerName: string, definition: string)
    requires ParseHttpCheck(containerName, definition).Ok?
    ensures var path := ParseHttpCheck(containerName, definition).value;
      && HasPrefix(definition, "GET ")
      && ' ' !in path
      && HasPrefix(definition[4..], path)
      && (4 + |path| == |definition| || definition[4 + |path|] == ' ')
  {
    HttpCheckAcceptedIffGetPrefix(containerName, definition);
    FirstFieldIsLongestPrefix(definition[4..], ' ');
  }
}
