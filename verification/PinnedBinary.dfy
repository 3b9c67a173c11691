// Choosing the pinned directory and writing its shim on Unix
// (backend/internal/agentlaunch/pin.go).
module PinnedBinary {
  import opened Options
  import opened LaunchPath
  import opened Text

  const BINARY := "open-agents"

  // A directory entry; `stat` is what following it yields, if that works.
  datatype Stat = Stat(regular: bool, executable: bool)
  datatype Entry = Entry(name: string, isDir: bool, stat: Option<Stat>)

  // What a shell can run from a directory.
  predicate Runnable(e: Entry) {
    !e.isDir && e.stat.Some? && e.stat.value.regular && e.stat.value.executable
  }

  function CommandsOf(entries: seq<Entry>): set<string> {
    set i | 0 <= i < |entries| && Runnable(entries[i]) :: entries[i].name
  }

  // The loop of pinDirectory over the install directory.
  method IsShared(entries: seq<Entry>, base: string) returns (shared: bool)
    ensures shared <==> exists c :: c in CommandsOf(entries) && c != base
  {
    shared := false;
    var i := 0;
    while i < |entries|
      invariant 0 <= i <= |entries|
      invariant shared <==> exists j :: 0 <= j < i && Runnable(entries[j]) && entries[j].name != base
    {
      var entry := entries[i];
      i := i + 1;
      if entry.name == base || entry.isDir {
        continue;
      }
      if entry.stat.None? {
        continue;
      }
      if !entry.stat.value.regular {
        continue;
      }
      if entry.stat.value.executable {
        shared := true;
      }
    }
    if shared {
      var j :| 0 <= j < |entries| && Runnable(entries[j]) && entries[j].name != base;
      assert entries[j].name in CommandsOf(entries);
    }
  }

  datatype Listing = Missing | Unreadable | Listed(entries: seq<Entry>)

  // Where the pin ends up: the install directory if it is the binary's own or
  // gone, otherwise the shim's directory; None is an error.
  method PinDirectory(dir: string, listing: Listing, dataDirIsAbsolute: bool, shimDir: string)
    returns (pin: Option<string>)
    ensures listing == Unreadable ==> pin == None
    ensures listing == Missing ==> pin == Some(dir)
    ensures listing.Listed? && CommandsOf(listing.entries) <= {BINARY} ==> pin == Some(dir)
    ensures listing.Listed? && !(CommandsOf(listing.entries) <= {BINARY}) ==>
              pin == if dataDirIsAbsolute then Some(shimDir) else None
  {
    match listing
    case Missing => pin := Some(dir);
    case Unreadable => pin := None;
    case Listed(entries) =>
      var shared := IsShared(entries, BINARY);
      if !shared {
        pin := Some(dir);
      } else if !dataDirIsAbsolute {
        pin := None;
      } else {
        pin := Some(shimDir);
      }
  }

  // Either way the pinned directory offers nothing but the binary, so putting
  // it first in the search list leaves every other command where it was.
  lemma PinningIsInvisible(parts: seq<string>, pin: string, at: Commands, command: string)
    requires pin in at ==> at[pin] <= {BINARY}
    requires command != BINARY
    ensures Lookup(Restored(parts, pin), at, command) == Lookup(parts, at, command)
  {
    PinHidesNothing(parts, pin, at, command);
  }

  // ---------- the shim's quoting ----------

  // strings.ReplaceAll of a quote by `'"'"'`.
  function Escaped(path: string): string {
    if path == "" then ""
    else (if path[0] == '\'' then "'\"'\"'" else [path[0]]) + Escaped(path[1..])
  }

  function Quoted(path: string): string {
    "'" + Escaped(path) + "'"
  }

  function Script(path: string): string {
    "#!/bin/sh\nexec " + Quoted(path) + " \"$@\"\n"
  }

  // How a POSIX shell reads one word (section 2.2 of the Shell Command
  // Language): inside single quotes everything is literal up to the next one;
  // inside double quotes everything is, but for `$`, backquote and backslash.
  // The value is the word and the text after it; None is a word with an
  // expansion or without an end, which the shim never writes.
  datatype Mode = Bare | Single | Double

  predicate Special(c: char) {
    c in {'$', '`', '\\'}
  }

  function Literal(c: char, rest: Option<(string, string)>): Option<(string, string)> {
    match rest
    case None => None
    case Some((word, after)) => Some(([c] + word, after))
  }

  function ReadWord(s: string, mode: Mode): Option<(string, string)> {
    if s == "" then None
    else
      var c := s[0];
      match mode
      case Bare =>
        if c in {' ', '\t', '\n'} then Some(("", s))
        else if c == '\'' then ReadWord(s[1..], Single)
        else if c == '"' then ReadWord(s[1..], Double)
        else if Special(c) || c in {';', '&', '|', '<', '>', '(', ')', '#', '*', '?', '[', '~'} then None
        else Literal(c, ReadWord(s[1..], Bare))
      case Single =>
        if c == '\'' then ReadWord(s[1..], Bare) else Literal(c, ReadWord(s[1..], Single))
      case Double =>
        if c == '"' then ReadWord(s[1..], Bare)
        else if Special(c) then None
        else Literal(c, ReadWord(s[1..], Double))
  }

  lemma ReadQuote(rest: string, mode: Mode)
    ensures ReadWord("'" + rest, mode) == match mode
      case Bare => ReadWord(rest, Single)
      case Single => ReadWord(rest, Bare)
      case Double => Literal('\'', ReadWord(rest, Double))
  {
    assert ("'" + rest)[1..] == rest;
  }

  lemma ReadDoubleQuote(rest: string, mode: Mode)
    requires mode != Single
    ensures ReadWord("\"" + rest, mode) == ReadWord(rest, if mode == Bare then Double else Bare)
  {
    assert ("\"" + rest)[1..] == rest;
  }

  // The five characters that stand for one quote: leave, open, quote, close, enter.
  lemma QuoteReads(rest: string)
    ensures ReadWord("'\"'\"'" + rest, Single) == Literal('\'', ReadWord(rest, Single))
  {
    var s4 := "'" + rest;
    var s3 := "\"" + s4;
    var s2 := "'" + s3;
    var s1 := "\"" + s2;
    assert "'\"'\"'" + rest == "'" + s1;
    ReadQuote(s1, Single);
    ReadDoubleQuote(s2, Bare);
    ReadQuote(s3, Double);
    ReadDoubleQuote(s4, Double);
    ReadQuote(rest, Bare);
  }

  lemma {:induction false} EscapedReads(path: string, after: string)
    requires after != "" && after[0] in {' ', '\t', '\n'}
    ensures ReadWord(Escaped(path) + "'" + after, Single) == Some((path, after))
  {
    var s := Escaped(path) + "'" + after;
    if path == "" {
      assert s[1..] == after;
    } else {
      var rest := Escaped(path[1..]) + "'" + after;
      EscapedReads(path[1..], after);
      assert path == [path[0]] + path[1..];
      if path[0] == '\'' {
        assert s == "'\"'\"'" + rest;
        QuoteReads(rest);
      } else {
        assert s == [path[0]] + rest && s[1..] == rest;
      }
    }
  }

  // Whatever the path holds, quotes, blanks and dollar signs included, the
  // shell reads back exactly the path as the command to execute.
  lemma ShimRunsThePath(path: string)
    ensures var line := "#!/bin/sh\nexec "; var after := " \"$@\"\n";
      && HasPrefix(Script(path), line)
      && ReadWord(Script(path)[|line|..], Bare) == Some((path, after))
  {
    var line := "#!/bin/sh\nexec ";
    var after := " \"$@\"\n";
    var body := Escaped(path) + "'" + after;
    var script := Script(path);
    assert script == line + ("'" + body);
    assert script[|line|..] == "'" + body;
    assert ("'" + body)[1..] == body;
    EscapedReads(path, after);
  }
}
