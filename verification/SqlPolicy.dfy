/** The statement policy of the MariaDB restore inspection. */
module SqlPolicy {
  import opened Common
  import opened PythonText

  /** What every Unicode version agrees on. */
  ghost predicate Sane(u: Tables) {
    && (forall c | c in {'/', '*', '#', '-', '\'', '"', '`', ';', ',', '(', ')', '!'} :: !u.space(c) && !u.digit(c))
    && u.space('\n')
    && u.width('\n') == 1
  }

  datatype Error =
    | UnsafeSecurity | UnsafeObject | UnsafeDirective | InvalidName
    | AmbiguousComment | Truncated | SizeChanged | OversizedLine

  datatype Verdict = Accept(names: seq<string>) | Reject(error: Error)

  const UNSAFE_STATEMENTS: set<(string, string)> :=
    {("create", "database"), ("create", "schema"), ("create", "user"), ("alter", "user"),
     ("drop", "database"), ("drop", "schema"), ("drop", "user"),
     ("set", "global"), ("install", "plugin"), ("load", "data")}
  const OBJECT_STATEMENTS: set<(string, string)> := {("create", "table"), ("create", "view")}
  const UNSAFE_OBJECT_STATEMENTS: set<(string, string)> :=
    {("create", "procedure"), ("create", "function"), ("create", "event"), ("create", "trigger"),
     ("alter", "procedure"), ("alter", "function"), ("alter", "event"), ("alter", "trigger"),
     ("drop", "procedure"), ("drop", "function"), ("drop", "event"), ("drop", "trigger")}
  const UNSAFE_WORDS: set<string> := {"grant", "revoke", "delimiter", "source", "system", "pager", "tee", "use"}

  function FoldAll(u: Tables, tokens: seq<string>): (r: seq<string>)
    ensures |r| == |tokens|
  {
    if tokens == [] then [] else [Fold(u, tokens[0])] + FoldAll(u, tokens[1..])
  }

  function Concat(tokens: seq<string>): string {
    if tokens == [] then "" else tokens[0] + Concat(tokens[1..])
  }

  function StripSemicolons(s: string): string {
    if s != "" && s[|s| - 1] == ';' then StripSemicolons(s[..|s| - 1]) else s
  }

  predicate Alphanumeric(c: char) {
    'a' <= c <= 'z' || 'A' <= c <= 'Z' || '0' <= c <= '9'
  }

  /** `validate_database_name`: the stripped name, when it is one. */
  function DatabaseName(u: Tables, s: string): Option<string> {
    var name := StripRight(u, StripLeft(u, s));
    if && 1 <= |name| <= 63
       && Alphanumeric(name[0])
       && (forall i | 0 <= i < |name| :: Alphanumeric(name[i]) || name[i] in {'_', '.', '-'})
       && !Contains(name, "..")
       && (forall i | 0 <= i < |name| :: !u.space(name[i]))
    then Some(name) else None
  }

  function Head(lowered: seq<string>, k: nat): string {
    if k < |lowered| then StripSemicolons(lowered[k]) else ""
  }

  /** The reason a statement is refused, if it is. */
  function Forbidden(u: Tables, tokens: seq<string>): Option<Error>
    requires tokens != []
  {
    var lowered := FoldAll(u, tokens);
    var all := Concat(lowered);
    var first, second := Head(lowered, 0), Head(lowered, 1);
    if Contains(all, "definer") then Some(UnsafeSecurity)
    else if && first in {"create", "alter", "drop"}
            && (Contains(all, "procedure") || Contains(all, "function")
                || Contains(all, "event") || Contains(all, "trigger")) then Some(UnsafeObject)
    else if first in UNSAFE_WORDS || (first, second) in UNSAFE_STATEMENTS
            || (first, second) in UNSAFE_OBJECT_STATEMENTS then Some(UnsafeDirective)
    else None
  }

  /** The token that names the table or view a statement creates. */
  function Target(u: Tables, tokens: seq<string>): Option<string>
    requires tokens != []
  {
    var lowered := FoldAll(u, tokens);
    if (Head(lowered, 0), Head(lowered, 1)) !in OBJECT_STATEMENTS then None
    else
      var index := if |lowered| >= 5 && lowered[2..5] == ["if", "not", "exists"] then 5 else 2;
      if index < |tokens| then Some(tokens[index]) else None
  }

  /** `_inspect_mariadb_statement`: the names collected so far and this statement's. */
  function InspectStatement(u: Tables, tokens: seq<string>, names: seq<string>): Verdict {
    if tokens == [] then Accept(names)
    else if Forbidden(u, tokens).Some? then Reject(Forbidden(u, tokens).value)
    else match Target(u, tokens)
      case None => Accept(names)
      case Some(token) =>
        match DatabaseName(u, token)
        case None => Reject(InvalidName)
        case Some(name) => Accept(if name in names then names else names + [name])
  }
}
