/**
 The SSH connector's two ends: the registry that generates commands for typed operations, and the
 forced-command wrapper on the server that recognises them.
 */
module SshCommands {
  import opened Common
  import opened PythonText

  type Argv = seq<string>

  const INPUT_FORBIDDEN: set<char> :=
    {'\0', '\n', '\r', ';', '|', '&', '$', '>', '<', '*', '?', '{', '}', '[', ']', '(', ')', '!', '`'}
  /** The wrapper also refuses quotes and backslashes. */
  const QUOTING: set<char> := {'\'', '"', '\\'}
  const SHOWN := "--property=Id,LoadState," + "ActiveState,SubState,FragmentPath"

  const SECRET_PATH_PARTS: set<string> :=
    {".env", ".env.local", ".env.production", "id_rsa", "id_ed25519", "authorized_keys",
     "shadow", "passwd", "credentials", "credential", "secrets", "private"}
  const BROAD_ROOTS: set<string> := {"/root", "/home", "/var", "/etc", "/proc", "/sys"}
  const PROGRAMS: set<string> :=
    {"apache2", "cat", "df", "head", "hostname", "httpd", "nginx", "node", "php", "python3",
     "realpath", "ss", "stat", "systemctl", "true", "uname"}
  const MAX_FILE_BYTES := 1048576

  // ----- Paths -----

  /** The names of a pure POSIX path: empty and single-dot segments are dropped. */
  function Names(parts: seq<string>): seq<string> {
    if parts == [] then []
    else (if parts[0] == "" || parts[0] == "." then [] else [parts[0]]) + Names(parts[1..])
  }

  /** Two leading slashes, and only two, are kept. */
  function Anchor(s: string): string {
    if StartsWith(s, "//") && !StartsWith(s, "///") then "//" else if StartsWith(s, "/") then "/" else ""
  }

  /** `str(PurePosixPath(s))`. */
  function Normal(s: string): string {
    if Anchor(s) == "" && Names(Split(s)) == [] then "." else Anchor(s) + Join(Names(Split(s)))
  }

  /** `PurePosixPath(a, b)` for a relative `b`. */
  function Joined(a: string, b: string): string {
    Normal(if a != "" && a[|a| - 1] == '/' then a + b else a + "/" + b)
  }

  predicate CleanInput(u: Tables, s: string) {
    forall i | 0 <= i < |s| :: s[i] !in INPUT_FORBIDDEN && !u.space(s[i]) && s[i] as int >= 32
  }

  function Strip(u: Tables, s: string): string { StripRight(u, StripLeft(u, s)) }

  predicate SecretPart(u: Tables, part: string) { Fold(u, part) in SECRET_PATH_PARTS }

  predicate NoneSecret(u: Tables, names: seq<string>) { forall i | 0 <= i < |names| :: !SecretPart(u, names[i]) }

  /** `validate_absolute_root`. */
  function AbsoluteRoot(u: Tables, value: string): Option<string> {
    var c := Strip(u, value);
    if && StartsWith(c, "/") && c == Normal(c) && c != "/" && CleanInput(u, c) && ',' !in c
       && ".." !in Names(Split(c)) && c !in BROAD_ROOTS
    then Some(c) else None
  }

  /** `validate_relative_path`. */
  function RelativePath(u: Tables, value: string): Option<string> {
    var c := Strip(u, value);
    if && c != "" && !StartsWith(c, "/") && '\\' !in c && '%' !in c && CleanInput(u, c)
       && (forall i | 0 <= i < |Split(c)| :: Split(c)[i] != "" && Split(c)[i] != "." && Split(c)[i] != "..")
       && (forall i | 0 <= i < |Split(c)| :: !SecretPart(u, Split(c)[i]))
    then Some(c) else None
  }

  /** `join_approved_path`. */
  function JoinApproved(u: Tables, root: string, relative: string): Option<string> {
    match (AbsoluteRoot(u, root), RelativePath(u, relative))
    case (Some(r), Some(p)) =>
      if Joined(r, p) == r || StartsWith(Joined(r, p), r + "/") then Some(Joined(r, p)) else None
    case _ => None
  }

  predicate IdentifierChar(c: char) {
    'a' <= c <= 'z' || 'A' <= c <= 'Z' || '0' <= c <= '9' || c in "_.:-"
  }

  /** A stored identifier: `validate_identifier` has stripped and checked it. */
  predicate Identifier(u: Tables, s: string) {
    && 1 <= |s| <= 128 && IdentifierChar(s[0]) && s[0] !in "_.:-"
    && (forall i | 0 <= i < |s| :: IdentifierChar(s[i]) && !u.space(s[i]))
    && !Contains(s, "..")
  }

  // ----- Operations and the generator -----

  datatype Operation =
    | ConnectionProbe | HostInventory
    | FilesystemMetadataRead(root: string) | SafeFileRead(root: string, relative: string)
    | ServiceMetadataRead(service: string) | WebServerMetadataRead | RuntimeMetadataRead
    | NetworkBindingRead | StorageMetadataRead(root: string) | ApplicationRootVerification(root: string)
  {
    /** The constructors' rules. */
    predicate Constructed(u: Tables) {
      match this
      case FilesystemMetadataRead(root) => AbsoluteRoot(u, root) == Some(root)
      case StorageMetadataRead(root) => AbsoluteRoot(u, root) == Some(root)
      case ApplicationRootVerification(root) => AbsoluteRoot(u, root) == Some(root)
      case SafeFileRead(root, relative) =>
        AbsoluteRoot(u, root) == Some(root) && RelativePath(u, relative) == Some(relative)
      case ServiceMetadataRead(service) => Identifier(u, service)
      case _ => true
    }

    predicate HasRoot() {
      FilesystemMetadataRead? || SafeFileRead? || StorageMetadataRead? || ApplicationRootVerification?
    }
  }

  datatype Target = Target(roots: seq<string>, services: seq<string>)

  /** `str(n)`. */
  function Decimal(n: nat): string {
    if n < 10 then [Digit(n)] else Decimal(n / 10) + [Digit(n % 10)]
  }

  function Digit(d: nat): char
    requires d < 10
  {
    "0123456789"[d]
  }

  function Templates(op: Operation, path: string, limit: nat): seq<Argv> {
    match op
    case ConnectionProbe => [["true"]]
    case HostInventory => [["hostname"], ["uname", "-srm"], ["cat", "--", "/etc/os-release"]]
    case FilesystemMetadataRead(root) =>
      [["realpath", "-e", "--", root], ["stat", "--format=%n:%F:%U:%G:%a:%s:%d:%i", "--", root]]
    case SafeFileRead(_, _) =>
      [["stat", "--format=%F:%s", "--", path], ["realpath", "--", path],
       ["head", "-c", Decimal(limit), "--", path]]
    case ServiceMetadataRead(service) =>
      [["systemctl", "show", "--no-pager", SHOWN, service]]
    case WebServerMetadataRead => [["nginx", "-V"], ["apache2", "-v"], ["httpd", "-v"]]
    case RuntimeMetadataRead => [["python3", "--version"], ["node", "--version"], ["php", "--version"]]
    case NetworkBindingRead => [["ss", "-lntH"]]
    case StorageMetadataRead(root) => [["realpath", "-e", "--", root], ["df", "-P", "-k", "--", root]]
    case ApplicationRootVerification(root) =>
      [["realpath", "-e", "--", root], ["stat", "--format=%n:%F:%U:%G:%a", "--", root]]
  }

  /** `RemoteCommand`'s checks. */
  predicate Registered(argv: Argv) {
    && argv != [] && argv[0] in PROGRAMS
    && forall i | 0 <= i < |argv| ::
         argv[i] != "" && forall k | 0 <= k < |argv[i]| :: argv[i][k] !in INPUT_FORBIDDEN && argv[i][k] as int >= 32
  }

  /** `CommandRegistry.commands_for`: the commands, unless the operation is rejected. */
  function CommandsFor(u: Tables, op: Operation, target: Target, limit: nat): Option<seq<Argv>> {
    if op.HasRoot() && op.root !in target.roots then None
    else if op.ServiceMetadataRead? && op.service !in target.services then None
    else if op.SafeFileRead? && JoinApproved(u, op.root, op.relative).None? then None
    else
      var path := if op.SafeFileRead? then JoinApproved(u, op.root, op.relative).value else "";
      var commands := Templates(op, path, limit);
      if forall i | 0 <= i < |commands| :: Registered(commands[i]) then Some(commands) else None
  }

  // ----- The recogniser -----

  datatype Profile = Profile(roots: seq<string>, services: seq<string>, maxFileBytes: nat)

  /** `SshCommandProfile.from_target`, which refuses a larger file limit than the wrapper's. */
  function ProfileOf(target: Target, limit: nat): Option<Profile> {
    if 1 <= limit <= MAX_FILE_BYTES then Some(Profile(target.roots, target.services, limit)) else None
  }

  /** `shlex.split` on a string without quotes and backslashes. */
  function Words(s: string, word: string): seq<string> {
    if s == "" then Flush(word)
    else if s[0] in " \t\r\n" then Flush(word) + Words(s[1..], "")
    else Words(s[1..], word + [s[0]])
  }

  function Flush(word: string): seq<string> { if word == "" then [] else [word] }

  /** The wrapper refuses the character. */
  predicate Bad(c: char) { c in INPUT_FORBIDDEN || c in QUOTING || (c as int) < 32 }

  predicate HasBad(s: string) { exists i :: 0 <= i < |s| && Bad(s[i]) }

  predicate AllDigits(s: string) { s != "" && forall i | 0 <= i < |s| :: '0' <= s[i] <= '9' }

  function ValueOf(s: string): nat
    requires forall i | 0 <= i < |s| :: '0' <= s[i] <= '9'
  {
    if s == "" then 0 else 10 * ValueOf(s[..|s| - 1]) + (s[|s| - 1] as int - '0' as int)
  }

  predicate ApprovedRoot(u: Tables, value: string, p: Profile) {
    AbsoluteRoot(u, value).Some? && AbsoluteRoot(u, value).value in p.roots
  }

  /** `_approved_path`; `inside` says that the path resolves to one inside an approved root. */
  predicate ApprovedPath(u: Tables, value: string, p: Profile, inside: string -> bool) {
    && StartsWith(value, "/") && '\\' !in value && !Contains(value, "//")
    && Normal(value) == value && ".." !in Names(Split(value))
    && NoneSecret(u, Names(Split(value)))
    && (exists i :: 0 <= i < |p.roots| && (value == p.roots[i] || StartsWith(value, p.roots[i] + "/")))
    && inside(value)
  }

  const FIXED: set<Argv> :=
    {["true"], ["hostname"], ["uname", "-srm"], ["cat", "--", "/etc/os-release"], ["ss", "-lntH"],
     ["nginx", "-V"], ["apache2", "-v"], ["httpd", "-v"],
     ["python3", "--version"], ["node", "--version"], ["php", "--version"]}

  predicate Allowlisted(u: Tables, argv: Argv, p: Profile, inside: string -> bool) {
    || argv in FIXED
    || (|argv| == 5 && argv[..2] == ["head", "-c"] && argv[3] == "--" && AllDigits(argv[2])
        && 1 <= ValueOf(argv[2]) <= p.maxFileBytes && ApprovedPath(u, argv[4], p, inside))
    || (|argv| == 4 && argv[..3] == ["realpath", "-e", "--"] && ApprovedRoot(u, argv[3], p))
    || (|argv| == 3 && argv[..2] == ["realpath", "--"] && ApprovedPath(u, argv[2], p, inside))
    || (|argv| == 5 && argv[..4] == ["df", "-P", "-k", "--"] && ApprovedRoot(u, argv[4], p))
    || (|argv| == 4 && argv[..3] == ["stat", "--format=%n:%F:%U:%G:%a:%s:%d:%i", "--"] && ApprovedRoot(u, argv[3], p))
    || (|argv| == 4 && argv[..3] == ["stat", "--format=%n:%F:%U:%G:%a", "--"] && ApprovedRoot(u, argv[3], p))
    || (|argv| == 4 && argv[..3] == ["stat", "--format=%F:%s", "--"] && ApprovedPath(u, argv[3], p, inside))
    || (|argv| == 5
        && argv[..4] == ["systemctl", "show", "--no-pager", SHOWN]
        && argv[4] in p.services)
  }

  /** `validate_original_command`. */
  function Recognise(u: Tables, command: string, p: Profile, inside: string -> bool): Option<Argv> {
    if Strip(u, command) == "" || HasBad(command) then None
    else
      var argv := Words(command, "");
      if argv != [] && Allowlisted(u, argv, p, inside) then Some(argv) else None
  }

  /** The command line the client sends. */
  function Line(argv: Argv): string {
    if argv == [] then "" else if |argv| == 1 then argv[0] else argv[0] + " " + Line(argv[1..])
  }
}
