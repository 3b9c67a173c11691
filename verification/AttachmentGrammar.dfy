// The attachment names the store accepts, spelled out as a grammar.
module AttachmentGrammar {
  import opened Options
  import opened Text
  import opened AttachmentNames

  predicate WordChar(c: char) {
    'a' <= c <= 'z' || 'A' <= c <= 'Z' || '0' <= c <= '9' || c == '-' || c == '_'
  }

  predicate Word(s: string) {
    s != "" && forall i :: 0 <= i < |s| ==> WordChar(s[i])
  }

  // "svg" or "svgz", in any case.
  predicate Svg(s: string) {
    && (|s| == 3 || (|s| == 4 && (s[3] == 'z' || s[3] == 'Z')))
    && (s[0] == 's' || s[0] == 'S') && (s[1] == 'v' || s[1] == 'V') && (s[2] == 'g' || s[2] == 'G')
  }

  // A prefix, a stem, and dot-separated words, the last of them not svg.
  predicate Spelled(name: string, prefix: string, stem: string, words: seq<string>) {
    && (prefix == "attachment-" || prefix == "image-")
    && Word(stem) && words != [] && (forall i :: 0 <= i < |words| ==> Word(words[i]))
    && !Svg(words[|words| - 1])
    && name == prefix + (stem + "." + Join(words, '.'))
    && |name| <= 255
  }

  ghost predicate WellNamed(name: string) {
    exists prefix, stem, words :: Spelled(name, prefix, stem, words)
  }

  // ---------- dotted words ----------

  predicate Dotted(s: string) {
    && s != "" && s[0] != '.' && s[|s| - 1] != '.'
    && (forall i :: 0 <= i < |s| - 1 ==> !(s[i] == '.' && s[i + 1] == '.'))
    && (forall i :: 0 <= i < |s| ==> WordChar(s[i]) || s[i] == '.')
  }

  lemma SplitHead(s: string)
    requires s != ""
    ensures var rest := Split(s[1..], '.');
      Split(s, '.') == if s[0] == '.' then [""] + rest else [[s[0]] + rest[0]] + rest[1..]
  {}

  predicate Words(parts: seq<string>) {
    forall i :: 0 <= i < |parts| ==> Word(parts[i])
  }

  lemma WordCons(c: char, w: string)
    ensures Word([c] + w) <==> WordChar(c) && (w == "" || Word(w))
  {
    var all := [c] + w;
    assert all[0] == c;
    assert forall i :: 0 <= i < |w| ==> all[i + 1] == w[i];
    assert forall i :: 1 <= i < |all| ==> all[i] == w[i - 1];
  }

  lemma WordsCons(w: string, parts: seq<string>)
    ensures Words([w] + parts) <==> Word(w) && Words(parts)
  {
    var all := [w] + parts;
    assert all[0] == w;
    assert forall i :: 0 <= i < |parts| ==> all[i + 1] == parts[i];
    assert forall i :: 1 <= i < |all| ==> all[i] == parts[i - 1];
  }

  // Text with no empty piece between its dots splits into words, and only such.
  lemma {:induction false} SplitDotted(s: string)
    ensures Words(Split(s, '.')) <==> Dotted(s)
  {
    if s == "" {
      assert Split(s, '.')[0] == "";
    } else {
      var rest := Split(s[1..], '.');
      SplitHead(s);
      if s[0] == '.' {
        WordsCons("", rest);
      } else {
        assert rest == [rest[0]] + rest[1..];
        WordsCons([s[0]] + rest[0], rest[1..]);
        WordCons(s[0], rest[0]);
        if |s| == 1 {
          assert rest == [""];
        } else if s[1] == '.' {
          SplitHead(s[1..]);
          assert s[1..][1..] == s[2..] && rest[0] == "" && rest[1..] == Split(s[2..], '.');
          SplitDotted(s[2..]);
          DottedPair(s);
        } else {
          FirstPiece(s[1..]);
          WordsCons(rest[0], rest[1..]);
          SplitDotted(s[1..]);
          DottedTail(s);
        }
      }
    }
  }

  lemma FirstPiece(s: string)
    requires s != "" && s[0] != '.'
    ensures Split(s, '.')[0] != ""
  {
    SplitHead(s);
  }

  lemma DottedTail(s: string)
    requires |s| > 1 && s[0] != '.' && s[1] != '.'
    ensures Dotted(s) <==> WordChar(s[0]) && Dotted(s[1..])
  {
    var t := s[1..];
    assert forall i :: 1 <= i < |s| ==> s[i] == t[i - 1];
    assert forall i :: 0 <= i < |t| ==> t[i] == s[i + 1];
  }

  lemma DottedPair(s: string)
    requires |s| > 1 && s[0] != '.' && s[1] == '.'
    ensures Dotted(s) <==> WordChar(s[0]) && Dotted(s[2..])
  {
    var t := s[2..];
    assert forall i :: 2 <= i < |s| ==> s[i] == t[i - 2];
    assert forall i :: 0 <= i < |t| ==> t[i] == s[i + 2];
  }

  lemma {:induction false} DottedJoins(words: seq<string>)
    requires words != [] && Words(words)
    ensures Dotted(Join(words, '.')) && Split(Join(words, '.'), '.') == words
  {
    assert !WordChar('.');
    assert forall i :: 0 <= i < |words| ==> '.' !in words[i];
    SplitJoin(words, '.');
    SplitDotted(Join(words, '.'));
  }

  // ---------- the pieces of a name ----------

  lemma {:induction false} IndexOfIs(s: string, c: char)
    ensures var k := IndexOf(s, c);
      if k < 0 then c !in s else k < |s| && s[k] == c && c !in s[..k]
  {
    if s != "" && s[0] != c {
      IndexOfIs(s[1..], c);
      var k := IndexOf(s[1..], c);
      if k >= 0 { assert s[..k + 1] == [s[0]] + s[1..][..k]; }
      assert s == [s[0]] + s[1..];
    }
  }

  lemma {:induction false} ExtensionIs(front: string, last: string)
    requires '.' !in last
    ensures Extension(front + "." + last) == "." + last
  {
    var s := front + "." + last;
    if last != "" {
      var n := |last| - 1;
      assert last[n] in last;
      assert s[..|s| - 1] == front + "." + last[..n];
      ExtensionIs(front, last[..n]);
      assert last == last[..n] + [last[n]];
    }
  }

  lemma SvgIsRefused(last: string)
    ensures ToLower("." + last) in [".svg", ".svgz"] <==> Svg(last)
  {
    var e := "." + last;
    var low := ToLower(e);
    LowerChars(e);
    assert forall i :: 0 <= i < |last| ==> e[i + 1] == last[i];
    assert low[0] == '.';
    assert low == ".svg" <==> |last| == 3 && low[1] == 's' && low[2] == 'v' && low[3] == 'g';
    assert low == ".svgz" <==> |last| == 4 && low[1] == 's' && low[2] == 'v' && low[3] == 'g' && low[4] == 'z';
    if |last| == 3 || |last| == 4 {
      assert low[1] == ToLowerChar(last[0]) && low[2] == ToLowerChar(last[1]) && low[3] == ToLowerChar(last[2]);
      if |last| == 4 { assert low[4] == ToLowerChar(last[3]); }
    }
  }

  lemma PartsAre(part: string)
    ensures ValidNamePart(part, true) <==> Dotted(part)
    ensures ValidNamePart(part, false) <==> Word(part)
  {}

  // A dot-separated text ends in the last of its words.
  lemma LastWord(words: seq<string>) returns (front: string)
    requires |words| > 1
    ensures Join(words, '.') == front + "." + words[|words| - 1]
  {
    if |words| == 2 {
      front := words[0];
      assert words[1..] == [words[1]];
    } else {
      var rest := LastWord(words[1..]);
      front := words[0] + "." + rest;
    }
  }

  lemma ExtensionPast(before: string, text: string, front: string, last: string)
    requires '.' !in last && text == front + "." + last
    ensures Extension(before + "." + text) == "." + last
  {
    assert before + "." + text == (before + "." + front) + "." + last;
    ExtensionIs(before + "." + front, last);
  }

  // A text of words is its last word, or ends in a dot and that.
  lemma WordsEnd(words: seq<string>) returns (front: string)
    requires words != [] && Words(words)
    ensures '.' !in words[|words| - 1]
    ensures |words| == 1 ==> Join(words, '.') == words[0]
    ensures |words| > 1 ==> Join(words, '.') == front + "." + words[|words| - 1]
  {
    assert Word(words[|words| - 1]);
    WordHasNoDot(words[|words| - 1]);
    front := "";
    if |words| > 1 { front := LastWord(words); }
  }

  lemma ExtensionOfWords(before: string, words: seq<string>)
    requires words != [] && Words(words)
    ensures Extension(before + "." + Join(words, '.')) == "." + words[|words| - 1]
  {
    var text, last := Join(words, '.'), words[|words| - 1];
    var front := WordsEnd(words);
    if |words| == 1 {
      ExtensionIs(before, last);
    } else {
      ExtensionPast(before, text, front, last);
    }
  }

  lemma WordHasNoDot(w: string)
    requires Word(w)
    ensures '.' !in w
  {
    assert !WordChar('.');
  }

  // What a prefix leaves of a name, and that its letters are harmless.
  lemma PrefixTaken(prefix: string, rest: string)
    requires prefix == "attachment-" || prefix == "image-"
    ensures Remainder(prefix + rest) == Some(rest)
    ensures forall i :: 0 <= i < |prefix| ==> WordChar(prefix[i])
  {
    var name := prefix + rest;
    assert name[|prefix|..] == rest && prefix <= name;
    if prefix == "image-" { assert name[0] == 'i'; }
  }

  lemma HarmlessName(name: string)
    requires forall i :: 0 <= i < |name| ==> WordChar(name[i]) || name[i] == '.'
    ensures '/' !in name && '\\' !in name && '\0' !in name
  {
    assert !WordChar('/') && !WordChar('\\') && !WordChar('\0');
  }

  lemma DotAt(stem: string, tail: string)
    requires Word(stem)
    ensures IndexOf(stem + "." + tail, '.') == |stem|
  {
    var rest := stem + "." + tail;
    IndexOfIs(rest, '.');
    assert !WordChar('.') && rest[|stem|] == '.';
    assert forall i :: 0 <= i < |stem| ==> rest[i] == stem[i];
    assert forall k :: |stem| < k <= |rest| ==> rest[..k][|stem|] == '.';
  }

  lemma RemainderIsValid(stem: string, tail: string)
    requires Word(stem) && Dotted(tail)
    ensures ValidRemainder(stem + "." + tail)
  {
    var rest := stem + "." + tail;
    DotAt(stem, tail);
    assert rest[..|stem|] == stem && rest[|stem| + 1..] == tail;
    PartsAre(stem);
    PartsAre(tail);
  }

  lemma RemainderParts(rest: string) returns (stem: string, tail: string)
    requires ValidRemainder(rest)
    ensures Word(stem) && Dotted(tail) && rest == stem + "." + tail
  {
    var dot := IndexOf(rest, '.');
    IndexOfIs(rest, '.');
    stem, tail := rest[..dot], rest[dot + 1..];
    PartsAre(stem);
    PartsAre(tail);
  }

  lemma NameIsHarmless(prefix: string, stem: string, tail: string)
    requires (prefix == "attachment-" || prefix == "image-") && Word(stem) && Dotted(tail)
    ensures var name := prefix + (stem + "." + tail); '/' !in name && '\\' !in name && '\0' !in name
  {
    var name := prefix + (stem + "." + tail);
    PrefixTaken(prefix, stem + "." + tail);
    assert forall i :: 0 <= i < |prefix| ==> name[i] == prefix[i];
    assert forall i :: |prefix| <= i < |prefix| + |stem| ==> name[i] == stem[i - |prefix|];
    assert forall i :: |prefix| + |stem| < i < |name| ==> name[i] == tail[i - |prefix| - |stem| - 1];
    HarmlessName(name);
  }

  lemma NameExtension(prefix: string, stem: string, words: seq<string>)
    requires words != [] && Words(words)
    ensures ToLower(Extension(prefix + (stem + "." + Join(words, '.')))) in [".svg", ".svgz"] <==> Svg(words[|words| - 1])
  {
    assert prefix + (stem + "." + Join(words, '.')) == (prefix + stem) + "." + Join(words, '.');
    ExtensionOfWords(prefix + stem, words);
    SvgIsRefused(words[|words| - 1]);
  }

  lemma SpelledIsValid(name: string, prefix: string, stem: string, words: seq<string>)
    requires Spelled(name, prefix, stem, words)
    ensures ValidName(name)
  {
    var tail := Join(words, '.');
    PrefixTaken(prefix, stem + "." + tail);
    DottedJoins(words);
    RemainderIsValid(stem, tail);
    NameIsHarmless(prefix, stem, tail);
    NameExtension(prefix, stem, words);
  }

  lemma ValidIsSpelled(name: string) returns (prefix: string, stem: string, words: seq<string>)
    requires ValidName(name)
    ensures Spelled(name, prefix, stem, words)
  {
    prefix := if HasPrefix(name, "attachment-") then "attachment-" else "image-";
    var rest := Remainder(name).value;
    assert name == prefix + rest;
    var tail;
    stem, tail := RemainderParts(rest);
    words := Split(tail, '.');
    SplitDotted(tail);
    JoinSplit(tail, '.');
    NameExtension(prefix, stem, words);
  }

  // The store accepts exactly the names of the grammar.
  lemma ValidNameIff(name: string)
    ensures ValidName(name) <==> WellNamed(name)
  {
    if ValidName(name) {
      var prefix, stem, words := ValidIsSpelled(name);
    }
    if WellNamed(name) {
      var prefix, stem, words :| Spelled(name, prefix, stem, words);
      SpelledIsValid(name, prefix, stem, words);
    }
  }

  // In particular a picture is accepted, and a vector graphic never is, under
  // either prefix and in either case.
  lemma PngIsAccepted(prefix: string, stem: string)
    requires (prefix == "attachment-" || prefix == "image-") && Word(stem) && |stem| <= 240
    ensures ValidName(prefix + (stem + "." + "png"))
  {
    var png := "png";
    assert Word(png) && !Svg(png) && Join([png], '.') == png;
    SpelledIsValid(prefix + (stem + "." + png), prefix, stem, [png]);
  }

  lemma SvgIsNever(front: string, svg: string)
    requires Svg(svg)
    ensures !ValidName(front + "." + svg)
  {
    assert forall i :: 0 <= i < |svg| ==> svg[i] != '.';
    ExtensionIs(front, svg);
    SvgIsRefused(svg);
  }

  // Backslashes are read as slashes, everything else as it is.
  lemma {:induction false} SlashesAt(raw: string)
    ensures |Slashes(raw)| == |raw|
    ensures forall i :: 0 <= i < |raw| ==> Slashes(raw)[i] == if raw[i] == '\\' then '/' else raw[i]
  {
    if raw != "" {
      SlashesAt(raw[1..]);
      assert forall i :: 1 <= i < |raw| ==> Slashes(raw)[i] == Slashes(raw[1..])[i - 1] && raw[i] == raw[1..][i - 1];
    }
  }
}
