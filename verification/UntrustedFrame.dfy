// Framing of page-controlled text (backend/internal/cli/browser.go).
module UntrustedFrame {
  const BEGIN := "<<<BEGIN UNTRUSTED EXTERNAL CONTENT>>>"
  const END := "<<<END UNTRUSTED EXTERNAL CONTENT>>>"

  predicate At(s: string, p: nat, m: string) {
    p + |m| <= |s| && s[p..p + |m|] == m
  }

  ghost predicate Contains(s: string, m: string) {
    exists p: nat :: At(s, p, m)
  }

  // strings.ReplaceAll: left to right, without overlap.
  function ReplaceAll(s: string, m: string, r: string): string
    requires m != ""
  {
    if |s| < |m| then s
    else if m <= s then r + ReplaceAll(s[|m|..], m, r)
    else [s[0]] + ReplaceAll(s[1..], m, r)
  }

  function Escaped(m: string): string
    requires m != ""
  {
    "\\u003c" + m[1..]
  }

  function Inner(value: string): string {
    ReplaceAll(ReplaceAll(value, BEGIN, Escaped(BEGIN)), END, Escaped(END))
  }

  function Frame(value: string): string {
    BEGIN + "\n" + Inner(value) + "\n" + END
  }

  // The shape both delimiters share, and all the proof needs of them.
  predicate Marker(m: string) {
    && |m| > 3 && m[0] == m[1] == m[2] == '<'
    && (forall i :: 3 <= i < |m| ==> m[i] != '<')
    && (forall i :: 0 <= i < |m| ==> m[i] != '\\' && m[i] != '\n')
  }

  lemma BeginIsMarker()
    ensures Marker(BEGIN)
  {}

  lemma EndIsMarker()
    ensures Marker(END)
  {}

  // ---------- what a replacement can and cannot create ----------

  // A text without the first character of the replacement can only start the
  // output if it started the input.
  lemma {:induction false} PrefixBack(s: string, m: string, r: string, w: string)
    requires m != "" && r != "" && r[0] !in w
    requires w <= ReplaceAll(s, m, r)
    ensures w <= s
  {
    if w != "" && |s| >= |m| {
      assert w[0] in w && w[0] == ReplaceAll(s, m, r)[0];
      if !(m <= s) {
        assert ReplaceAll(s, m, r)[1..] == ReplaceAll(s[1..], m, r);
        PrefixBack(s[1..], m, r, w[1..]);
        assert w == [w[0]] + w[1..] && s == [s[0]] + s[1..];
      }
    }
  }

  lemma Characters(s: string, p: nat, m: string)
    requires At(s, p, m)
    ensures forall k :: p <= k < p + |m| ==> s[k] == m[k - p]
  {
    assert forall k :: p <= k < p + |m| ==> s[p..p + |m|][k - p] == s[k];
  }

  // No marker starts inside an escaped marker, whatever follows it: the two
  // angle brackets left there are one too few.
  lemma NeverStartsInEscape(m: string, rest: string, w: string, p: nat)
    requires Marker(m) && Marker(w) && p < |Escaped(m)|
    ensures !At(Escaped(m) + rest, p, w)
  {
    var r := Escaped(m);
    var out := r + rest;
    assert forall i :: 8 <= i < |r| ==> r[i] == m[i - 5];
    assert forall i :: 0 <= i < |r| ==> out[i] == r[i];
    if At(out, p, w) {
      Characters(out, p, w);
    }
  }

  ghost predicate TailAt(s: string, n: nat, p: nat, w: string) {
    n <= p && n <= |s| && At(s[n..], p - n, w)
  }

  lemma TailAtMoves(s: string, n: nat, p: nat, w: string)
    requires n <= p && n <= |s|
    ensures At(s, p, w) <==> TailAt(s, n, p, w)
  {
    if p + |w| <= |s| {
      assert s[n..][p - n..p - n + |w|] == s[p..p + |w|];
    }
  }

  lemma ContainsTail(s: string, n: nat, w: string)
    requires n <= |s| && Contains(s[n..], w)
    ensures Contains(s, w)
  {
    var p: nat :| At(s[n..], p, w);
    TailAtMoves(s, n, n + p, w);
  }

  // A marker in the output was a marker in the input, and one the
  // replacement was not looking for.
  lemma {:induction false} MarkerBack(s: string, m: string, w: string, p: nat)
    requires Marker(m) && Marker(w)
    requires At(ReplaceAll(s, m, Escaped(m)), p, w)
    ensures Contains(s, w) && w != m
    decreases |s|
  {
    var r := Escaped(m);
    var out := ReplaceAll(s, m, r);
    if |s| < |m| {
      assert At(s, p, w);
    } else if m <= s {
      var rest := ReplaceAll(s[|m|..], m, r);
      if p < |r| { NeverStartsInEscape(m, rest, w, p); }
      TailAtMoves(out, |r|, p, w);
      assert out[|r|..] == rest;
      MarkerBack(s[|m|..], m, w, p - |r|);
      ContainsTail(s, |m|, w);
    } else {
      assert out[1..] == ReplaceAll(s[1..], m, r);
      if p == 0 {
        assert w <= out;
        PrefixBack(s, m, r, w);
        assert At(s, 0, w);
      } else {
        TailAtMoves(out, 1, p, w);
        MarkerBack(s[1..], m, w, p - 1);
        ContainsTail(s, 1, w);
      }
    }
  }

  // After the second replacement neither delimiter is left, so the second
  // one did not bring the first one back.
  lemma InnerHasNoDelimiter(value: string)
    ensures !Contains(Inner(value), BEGIN) && !Contains(Inner(value), END)
  {
    BeginIsMarker();
    EndIsMarker();
    var first := ReplaceAll(value, BEGIN, Escaped(BEGIN));
    forall p: nat | At(Inner(value), p, END) ensures false {
      MarkerBack(first, END, END, p);
    }
    forall p: nat | At(Inner(value), p, BEGIN) ensures false {
      MarkerBack(first, END, BEGIN, p);
      var q: nat :| At(first, q, BEGIN);
      MarkerBack(value, BEGIN, BEGIN, q);
    }
  }

  // ---------- the frame ----------

  // A marker never spans a line break.
  lemma WithinOneLine(a: string, b: string, p: nat, w: string)
    requires Marker(w) && At(a + "\n" + b, p, w)
    ensures At(a, p, w) || (p > |a| && At(b, p - |a| - 1, w))
  {
    var s := a + "\n" + b;
    assert s[|a|] == '\n';
    Characters(s, p, w);
    if p > |a| {
      TailAtMoves(s, |a| + 1, p, w);
      assert s[|a| + 1..] == b;
    } else if p + |w| <= |a| {
      assert a[p..p + |w|] == s[p..p + |w|];
    }
  }

  lemma EndIsNotInBegin(p: nat)
    ensures !At(BEGIN, p, END)
  {
    assert BEGIN[3] == 'B' && |BEGIN| == |END| + 2;
    assert END[0] == END[1] == END[2] == '<' && END[3] == 'E';
    if At(BEGIN, p, END) {
      Characters(BEGIN, p, END);
    }
  }

  // Whatever the page wrote, a reader finds the opening delimiter exactly
  // once, at the start, and the closing one exactly once, at the end.
  lemma DelimitersOccurOnce(value: string, p: nat)
    ensures At(Frame(value), p, BEGIN) <==> p == 0
    ensures At(Frame(value), p, END) <==> p == |Frame(value)| - |END|
  {
    BeginIsMarker();
    EndIsMarker();
    InnerHasNoDelimiter(value);
    var inner := Inner(value);
    var head := BEGIN + "\n" + inner;
    var text := Frame(value);
    assert text == head + "\n" + END;
    assert text[0..|BEGIN|] == BEGIN;
    assert text[|text| - |END|..|text|] == END;
    if At(text, p, BEGIN) {
      WithinOneLine(head, END, p, BEGIN);
      WithinOneLine(BEGIN, inner, p, BEGIN);
    }
    if At(text, p, END) {
      WithinOneLine(head, END, p, END);
      if At(head, p, END) {
        WithinOneLine(BEGIN, inner, p, END);
        EndIsNotInBegin(p);
      }
    }
  }

  lemma {:induction false} NothingToReplace(s: string, m: string, r: string)
    requires m != "" && !Contains(s, m)
    ensures ReplaceAll(s, m, r) == s
  {
    if |s| >= |m| {
      assert At(s, 0, m) <==> m <= s;
      if Contains(s[1..], m) { ContainsTail(s, 1, m); }
      NothingToReplace(s[1..], m, r);
      assert s == [s[0]] + s[1..];
    }
  }

  // Text holding neither delimiter passes through unchanged.
  lemma HarmlessTextIsVerbatim(value: string)
    requires !Contains(value, BEGIN) && !Contains(value, END)
    ensures Frame(value) == BEGIN + "\n" + value + "\n" + END
  {
    NothingToReplace(value, BEGIN, Escaped(BEGIN));
    NothingToReplace(value, END, Escaped(END));
  }

  // ---------- what becomes of a delimiter in the text ----------

  lemma PlainHead(c: char, t: string, m: string, r: string)
    requires Marker(m) && c != '<' && |t| >= |m|
    ensures ReplaceAll([c] + t, m, r) == [c] + ReplaceAll(t, m, r)
  {
    assert ([c] + t)[1..] == t && ([c] + t)[0] != m[0];
  }

  lemma {:induction false} MarkerReplaced(a: string, m: string, r: string, b: string)
    requires Marker(m) && '<' !in a
    ensures ReplaceAll(a + m + b, m, r) == a + (r + ReplaceAll(b, m, r))
  {
    if a == "" {
      var s := m + b;
      assert a + m + b == s && m <= s && s[|m|..] == b;
    } else {
      var t := a[1..] + m + b;
      assert a[0] in a && a == [a[0]] + a[1..];
      assert a + m + b == [a[0]] + t;
      PlainHead(a[0], t, m, r);
      MarkerReplaced(a[1..], m, r, b);
    }
  }

  lemma NoBracketNoMarker(s: string, m: string)
    requires Marker(m) && '<' !in s
    ensures !Contains(s, m)
  {
    assert forall i :: 0 <= i < |s| ==> s[i] in s && s[i] != '<';
    forall p: nat | At(s, p, m) ensures false {
      Characters(s, p, m);
    }
  }

  lemma MarkerAlone(a: string, m: string, b: string)
    requires Marker(m) && '<' !in a && '<' !in b
    ensures ReplaceAll(a + m + b, m, Escaped(m)) == a + (Escaped(m) + b)
  {
    MarkerReplaced(a, m, Escaped(m), b);
    NoBracketNoMarker(b, m);
    NothingToReplace(b, m, Escaped(m));
  }

  // Three brackets in a row are needed for a delimiter to start.
  lemma TooFewBrackets(s: string, m: string, k: nat)
    requires Marker(m) && forall i :: 0 <= i < |s| && s[i] == '<' ==> i == k || i == k + 1
    ensures !Contains(s, m)
  {
    forall p: nat | At(s, p, m) ensures false {
      Characters(s, p, m);
    }
  }

  lemma EscapedHasTwoBrackets(a: string, m: string, b: string)
    requires Marker(m) && '<' !in a && '<' !in b
    ensures var s := a + (Escaped(m) + b);
      forall i :: 0 <= i < |s| && s[i] == '<' ==> i == |a| + 6 || i == |a| + 7
  {
    var s := a + (Escaped(m) + b);
    var e := Escaped(m);
    assert forall i :: 0 <= i < |a| ==> s[i] == a[i] && a[i] in a;
    assert forall i :: |a| <= i < |a| + |e| ==> s[i] == e[i - |a|];
    assert forall i :: 6 <= i < |e| ==> e[i] == m[i - 5];
    assert forall i :: |a| + |e| <= i < |s| ==> s[i] == b[i - |a| - |e|] && b[i - |a| - |e|] in b;
  }

  lemma OtherDelimiterAbsent(a: string, b: string, p: nat)
    requires '<' !in a && '<' !in b
    ensures !At(a + END + b, p, BEGIN)
  {
    var s := a + END + b;
    EndIsMarker();
    assert forall i :: 0 <= i < |a| ==> s[i] == a[i] && a[i] in a;
    assert forall i :: |a| <= i < |a| + |END| ==> s[i] == END[i - |a|];
    assert forall i :: |a| + |END| <= i < |s| ==> s[i] == b[i - |a| - |END|] && b[i - |a| - |END|] in b;
    assert BEGIN[0] == BEGIN[1] == BEGIN[2] == '<' && BEGIN[3] == 'B' && END[3] == 'E';
    if At(s, p, BEGIN) {
      Characters(s, p, BEGIN);
    }
  }

  // A delimiter in the page's text loses its first bracket to \\u003c and nothing
  // else of the text changes.
  lemma DelimiterIsEscaped(a: string, b: string)
    requires '<' !in a && '<' !in b
    ensures Frame(a + BEGIN + b) == BEGIN + "\n" + (a + ("\\u003c" + BEGIN[1..] + b)) + "\n" + END
    ensures Frame(a + END + b) == BEGIN + "\n" + (a + ("\\u003c" + END[1..] + b)) + "\n" + END
  {
    BeginIsMarker();
    EndIsMarker();
    MarkerAlone(a, BEGIN, b);
    EscapedHasTwoBrackets(a, BEGIN, b);
    TooFewBrackets(a + (Escaped(BEGIN) + b), END, |a| + 6);
    NothingToReplace(a + (Escaped(BEGIN) + b), END, Escaped(END));
    forall p: nat ensures !At(a + END + b, p, BEGIN) { OtherDelimiterAbsent(a, b, p); }
    NothingToReplace(a + END + b, BEGIN, Escaped(BEGIN));
    MarkerAlone(a, END, b);
  }
}
