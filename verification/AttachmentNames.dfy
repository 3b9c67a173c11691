// Which names the attachment store accepts (backend/internal/attachmentstore/store.go).
module AttachmentNames {
  import opened Options
  import opened Text

  const WORKSPACE_PREFIX := ".open-agents/attachments/"
  const TEMP_PREFIX := ".attachment-"

  predicate NameChar(c: char, allowDot: bool) {
    'a' <= c <= 'z' || 'A' <= c <= 'Z' || '0' <= c <= '9' || c == '-' || c == '_' || (allowDot && c == '.')
  }

  predicate ValidNamePart(part: string, allowDot: bool) {
    && part != "" && part[0] != '.' && part[|part| - 1] != '.'
    && (forall i :: 0 <= i < |part| - 1 ==> !(part[i] == '.' && part[i + 1] == '.'))
    && (forall i :: 0 <= i < |part| ==> NameChar(part[i], allowDot))
  }

  function IndexOf(s: string, c: char): int {
    if s == [] then -1 else if s[0] == c then 0 else var i := IndexOf(s[1..], c); if i < 0 then -1 else i + 1
  }

  // The suffix from the last dot.
  function Extension(s: string): string {
    if s == [] then "" else if s[|s| - 1] == '.' then "." else
      var e := Extension(s[..|s| - 1]);
      if e == "" then "" else e + [s[|s| - 1]]
  }

  function Remainder(name: string): Option<string> {
    if HasPrefix(name, "attachment-") then Some(name[11..])
    else if HasPrefix(name, "image-") then Some(name[6..])
    else None
  }

  predicate ValidRemainder(rest: string) {
    var dot := IndexOf(rest, '.');
    && 0 < dot < |rest| - 1
    && ValidNamePart(rest[..dot], false) && ValidNamePart(rest[dot + 1..], true)
  }

  // validateName.  On Unix the base-name test adds nothing to the separator test.
  predicate ValidName(name: string) {
    && name != "" && |name| <= 255 && '/' !in name && '\\' !in name && '\0' !in name
    && Remainder(name).Some? && ValidRemainder(Remainder(name).value)
    && ToLower(Extension(name)) !in [".svg", ".svgz"]
  }

  predicate IsTemp(name: string) {
    HasPrefix(name, TEMP_PREFIX)
  }

  lemma TempsAreNeverValid(name: string)
    requires IsTemp(name)
    ensures !ValidName(name)
  {
    assert name[0] == TEMP_PREFIX[0];
  }

  function Slashes(raw: string): string {
    if raw == [] then [] else [if raw[0] == '\\' then '/' else raw[0]] + Slashes(raw[1..])
  }

  function NameFromWorkspacePath(raw: string): Option<string> {
    var parts := Split(TrimPrefix(Slashes(raw), "/"), '/');
    if |parts| != 3 || parts[0] != ".open-agents" || parts[1] != "attachments" || !ValidName(parts[2]) then None
    else Some(parts[2])
  }

  lemma JoinThree(a: string, b: string, c: string, sep: char)
    ensures Join([a, b, c], sep) == a + [sep] + b + [sep] + c
  {
    assert [a, b, c][1..] == [b, c] && [b, c][1..] == [c];
    assert Join([c], sep) == c;
    assert Join([b, c], sep) == b + [sep] + Join([c], sep);
    assert Join([a, b, c], sep) == a + [sep] + Join([b, c], sep);
    assert a + [sep] + (b + [sep] + c) == a + [sep] + b + [sep] + c;
  }

  lemma PrefixSpelling(trimmed: string, name: string)
    requires '/' !in name
    ensures Split(trimmed, '/') == [".open-agents", "attachments", name] <==> trimmed == WORKSPACE_PREFIX + name
  {
    var spelled := [".open-agents", "attachments", name];
    JoinSplit(trimmed, '/');
    JoinThree(".open-agents", "attachments", name, '/');
    assert ".open-agents" + ['/'] + "attachments" + ['/'] == WORKSPACE_PREFIX;
    SplitJoin(spelled, '/');
  }

  lemma OneSlashTrimmed(flat: string, path: string)
    requires path != "" && path[0] != '/'
    ensures TrimPrefix(flat, "/") == path <==> flat == path || flat == "/" + path
  {
    if HasPrefix(flat, "/") {
      assert flat == "/" + flat[1..];
    }
  }

  // A path is recognized exactly if it spells, with either slash and at most one
  // leading one, a valid name directly inside the projection.
  lemma RecognizedPaths(raw: string, name: string)
    ensures NameFromWorkspacePath(raw) == Some(name) <==>
      ValidName(name) && (Slashes(raw) == WORKSPACE_PREFIX + name || Slashes(raw) == "/" + WORKSPACE_PREFIX + name)
  {
    var flat := Slashes(raw);
    var path := WORKSPACE_PREFIX + name;
    assert path[0] == WORKSPACE_PREFIX[0] && "/" + path == "/" + WORKSPACE_PREFIX + name;
    OneSlashTrimmed(flat, path);
    if ValidName(name) { PrefixSpelling(TrimPrefix(flat, "/"), name); }
  }
}
