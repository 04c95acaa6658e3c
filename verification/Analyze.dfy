// doc/analyze.go: the analyzer. A text is a sequence of runes here, and offsets
// count them.
module Analyze {

  // What the Unicode tables say beyond ASCII: the ideographs and kana that are
  // terms by themselves, the letters and digits, and lower case.
  datatype Tables = Tables(wide: char -> bool, word: char -> bool, lower: char -> char)

  datatype Class = Gap | Letter | Wide

  function ClassOf(t: Tables, c: char): Class {
    if c < 128 as char then
      if 'a' <= c <= 'z' || '0' <= c <= '9' || 'A' <= c <= 'Z' then Letter else Gap
    else if t.wide(c) then Wide
    else if t.word(c) then Letter
    else Gap
  }

  function FoldRune(t: Tables, c: char): char {
    if 'A' <= c <= 'Z' then (c as int + 32) as char
    else if c < 128 as char then c
    else t.lower(c)
  }

  // The ASCII half in numbers: digits and letters are letters, nothing is wide, and
  // capitals fold to small letters. Beyond it the tables decide, wide first.
  lemma RunesSay(t: Tables, c: char)
    ensures var n := c as int;
            if n < 128 then
              && (ClassOf(t, c) == Letter <==> 48 <= n <= 57 || 65 <= n <= 90 || 97 <= n <= 122)
              && ClassOf(t, c) != Wide
              && FoldRune(t, c) as int == if 65 <= n <= 90 then n + 32 else n
            else
              && (ClassOf(t, c) == Wide <==> t.wide(c)) && (ClassOf(t, c) == Letter <==> t.word(c) && !t.wide(c))
              && FoldRune(t, c) == t.lower(c)
  {
  }

  // Lower case of a word rune is a word rune, and its own lower case.
  ghost predicate Sane(t: Tables) {
    forall c :: ClassOf(t, c) == Letter ==>
      ClassOf(t, FoldRune(t, c)) == Letter && FoldRune(t, FoldRune(t, c)) == FoldRune(t, c)
  }

  function Fold(t: Tables, s: string): (r: string)
    ensures |r| == |s| && forall i :: 0 <= i < |s| ==> r[i] == FoldRune(t, s[i])
  {
    seq(|s|, i requires 0 <= i < |s| => FoldRune(t, s[i]))
  }

  predicate Letters(t: Tables, s: string, a: nat, b: nat)
    requires b <= |s|
  {
    forall i :: a <= i < b ==> ClassOf(t, s[i]) == Letter
  }

  // How many letters a text begins with.
  function RunLength(t: Tables, s: string): (n: nat)
    ensures n <= |s| && Letters(t, s, 0, n) && (n < |s| ==> ClassOf(t, s[n]) != Letter)
  {
    if s == "" || ClassOf(t, s[0]) != Letter then 0 else 1 + RunLength(t, s[1..])
  }

  datatype Span = Span(term: string, start: nat, end: nat)

  // The spans of a text that begins at an offset: every run of letters, folded,
  // and every wide rune.
  function Spans(t: Tables, s: string, at: nat): seq<Span>
    decreases |s|
  {
    if s == "" then []
    else match ClassOf(t, s[0])
      case Gap => Spans(t, s[1..], at + 1)
      case Wide => [Span(s[..1], at, at + 1)] + Spans(t, s[1..], at + 1)
      case Letter =>
        var n := RunLength(t, s);
        [Span(Fold(t, s[..n]), at, at + n)] + Spans(t, s[n..], at + n)
  }

  function TermsOf(spans: seq<Span>): seq<string> {
    seq(|spans|, i requires 0 <= i < |spans| => spans[i].term)
  }

  // What a caller that stops at some terms is given.
  function UpTo(spans: seq<Span>, stop: string -> bool): seq<Span> {
    if spans == [] then []
    else if stop(spans[0].term) then [spans[0]]
    else [spans[0]] + UpTo(spans[1..], stop)
  }

  // ---- The scan: one buffer, one start, one pass.

  // The state of the scan before rune i: what it has yielded and what it is
  // building. No term it yielded stopped it.
  ghost predicate Standing(t: Tables, text: string, stop: string -> bool, i: nat, start: int, cur: string,
                           out: seq<Span>) {
    && i <= |text|
    && (if start == -1 then
          cur == "" && UpTo(Spans(t, text, 0), stop) == out + UpTo(Spans(t, text[i..], i), stop)
        else
          && 0 <= start < i && Letters(t, text, start, i) && cur == Fold(t, text[start..i])
          && UpTo(Spans(t, text, 0), stop) == out + UpTo(Spans(t, text[start..], start), stop))
  }

  method Scan(t: Tables, text: string, stop: string -> bool) returns (out: seq<Span>)
    ensures out == UpTo(Spans(t, text, 0), stop)
  {
    hide Standing, Spans, UpTo, ClassOf, FoldRune;
    out := [];
    var cur, start := "", -1;
    Stands(t, text, stop);
    for i := 0 to |text|
      invariant -1 <= start < i && (start == -1 ==> cur == "")
      invariant Standing(t, text, stop, i, start, cur, out)
    {
      var r := text[i];
      match ClassOf(t, r)
      case Letter =>
        Grow(t, text, stop, i, start, cur, out);
        if start == -1 { start := i; }
        cur := cur + [FoldRune(t, r)];
      case Wide =>
        if start != -1 {
          Flush(t, text, stop, i, start, cur, out);
          out := out + [Span(cur, start, i)];
          if stop(cur) { return; }
          cur, start := "", -1;
        }
        Ideograph(t, text, stop, i, out);
        out := out + [Span([r], i, i + 1)];
        if stop([r]) { return; }
      case Gap =>
        if start != -1 {
          Flush(t, text, stop, i, start, cur, out);
          out := out + [Span(cur, start, i)];
          if stop(cur) { return; }
          cur, start := "", -1;
        }
        Between(t, text, stop, i, out);
    }
    if start != -1 {
      Flush(t, text, stop, |text|, start, cur, out);
      out := out + [Span(cur, start, |text|)];
      if stop(cur) { return; }
    }
    Ends(t, text, stop, out);
  }

  lemma Stands(t: Tables, text: string, stop: string -> bool)
    ensures Standing(t, text, stop, 0, -1, "", [])
  {
    assert text[0..] == text;
  }

  lemma Ends(t: Tables, text: string, stop: string -> bool, out: seq<Span>)
    requires Standing(t, text, stop, |text|, -1, "", out)
    ensures out == UpTo(Spans(t, text, 0), stop)
  {
  }

  lemma Grow(t: Tables, text: string, stop: string -> bool, i: nat, start: int, cur: string, out: seq<Span>)
    requires i < |text| && ClassOf(t, text[i]) == Letter && -1 <= start && Standing(t, text, stop, i, start, cur, out)
    ensures Standing(t, text, stop, i + 1, if start == -1 then i else start, cur + [FoldRune(t, text[i])], out)
  {
    hide ClassOf, FoldRune, Spans, UpTo;
    var from := if start == -1 then i else start;
    assert text[from..i + 1] == text[from..i] + [text[i]];
    assert Fold(t, text[from..i + 1]) == Fold(t, text[from..i]) + [FoldRune(t, text[i])];
    assert Fold(t, text[i..i]) == "";
  }

  lemma RunIs(t: Tables, s: string, n: nat)
    requires n <= |s| && Letters(t, s, 0, n) && (n < |s| ==> ClassOf(t, s[n]) != Letter)
    ensures RunLength(t, s) == n
  {
    hide RunLength, ClassOf;
  }

  lemma UpToFirst(first: Span, rest: seq<Span>, stop: string -> bool)
    ensures UpTo([first] + rest, stop) == [first] + if stop(first.term) then [] else UpTo(rest, stop)
  {
    assert ([first] + rest)[1..] == rest;
  }

  lemma RunSpans(t: Tables, text: string, start: nat, i: nat)
    requires start < i <= |text| && Letters(t, text, start, i) && (i < |text| ==> ClassOf(t, text[i]) != Letter)
    ensures Spans(t, text[start..], start) == [Span(Fold(t, text[start..i]), start, i)] + Spans(t, text[i..], i)
  {
    hide ClassOf, Fold;
    var s, n := text[start..], i - start;
    assert s[..n] == text[start..i] && s[n..] == text[i..];
    RunIs(t, s, n);
    assert ClassOf(t, s[0]) == Letter;
  }

  lemma Flush(t: Tables, text: string, stop: string -> bool, i: nat, start: int, cur: string, out: seq<Span>)
    requires start != -1 && Standing(t, text, stop, i, start, cur, out)
    requires i < |text| ==> ClassOf(t, text[i]) != Letter
    ensures start >= 0
    ensures stop(cur) ==> UpTo(Spans(t, text, 0), stop) == out + [Span(cur, start, i)]
    ensures !stop(cur) ==> Standing(t, text, stop, i, -1, "", out + [Span(cur, start, i)])
  {
    hide ClassOf, Fold, Spans, UpTo;
    RunSpans(t, text, start, i);
    UpToFirst(Span(cur, start, i), Spans(t, text[i..], i), stop);
  }

  lemma Ideograph(t: Tables, text: string, stop: string -> bool, i: nat, out: seq<Span>)
    requires i < |text| && ClassOf(t, text[i]) == Wide && Standing(t, text, stop, i, -1, "", out)
    ensures stop([text[i]]) ==> UpTo(Spans(t, text, 0), stop) == out + [Span([text[i]], i, i + 1)]
    ensures !stop([text[i]]) ==> Standing(t, text, stop, i + 1, -1, "", out + [Span([text[i]], i, i + 1)])
  {
    hide ClassOf, UpTo;
    var s := text[i..];
    assert s[1..] == text[i + 1..] && s[..1] == [text[i]];
    UpToFirst(Span([text[i]], i, i + 1), Spans(t, s[1..], i + 1), stop);
  }

  lemma Between(t: Tables, text: string, stop: string -> bool, i: nat, out: seq<Span>)
    requires i < |text| && ClassOf(t, text[i]) == Gap && Standing(t, text, stop, i, -1, "", out)
    ensures Standing(t, text, stop, i + 1, -1, "", out)
  {
    hide ClassOf, UpTo;
    assert text[i..][1..] == text[i + 1..];
  }

  lemma {:induction false} UpToNever(spans: seq<Span>)
    ensures UpTo(spans, _ => false) == spans
  {
    if spans != [] {
      UpToNever(spans[1..]);
    }
  }

  method AnalyzeText(t: Tables, text: string) returns (spans: seq<Span>)
    ensures spans == Spans(t, text, 0)
  {
    hide Spans;
    spans := Scan(t, text, _ => false);
    UpToNever(Spans(t, text, 0));
  }

  method Tokenize(t: Tables, text: string) returns (terms: seq<string>)
    ensures terms == TermsOf(Spans(t, text, 0))
  {
    var spans := AnalyzeText(t, text);
    terms := [];
    for i := 0 to |spans|
      invariant terms == TermsOf(spans[..i])
    {
      terms := terms + [spans[i].term];
    }
  }

  // Where the earliest wanted span begins; -1 without one.
  method Find(t: Tables, text: string, want: set<string>) returns (at: int, ghost n: nat)
    ensures at == -1 ==> forall m :: 0 <= m < |Spans(t, text, 0)| ==> Spans(t, text, 0)[m].term !in want
    ensures at != -1 ==>
              && n < |Spans(t, text, 0)| && at == Spans(t, text, 0)[n].start && Spans(t, text, 0)[n].term in want
              && forall m :: 0 <= m < n ==> Spans(t, text, 0)[m].term !in want
  {
    hide Spans, UpTo;
    var out := Scan(t, text, term => term in want);
    UpToWanted(Spans(t, text, 0), want);
    if |out| > 0 && out[|out| - 1].term in want {
      return out[|out| - 1].start, |out| - 1;
    }
    return -1, 0;
  }

  lemma {:induction false} UpToWanted(spans: seq<Span>, want: set<string>)
    ensures var out := UpTo(spans, term => term in want);
            && out <= spans
            && (forall m :: 0 <= m < |out| - 1 ==> out[m].term !in want)
            && ((out == [] || out[|out| - 1].term !in want) ==> out == spans)
  {
    if spans != [] && spans[0].term !in want {
      UpToWanted(spans[1..], want);
      assert spans == [spans[0]] + spans[1..];
    }
  }

  // ---- What the spans are, said without the scan.

  // A whole run of letters, or one wide rune.
  ghost predicate Word(t: Tables, s: string, a: nat, b: nat) {
    && a < b <= |s|
    && (|| (b == a + 1 && ClassOf(t, s[a]) == Wide)
        || (&& Letters(t, s, a, b)
            && (a > 0 ==> ClassOf(t, s[a - 1]) != Letter)
            && (b < |s| ==> ClassOf(t, s[b]) != Letter)))
  }

  // The spans are the words of the text, all of them, each folding to its term,
  // in order and apart.
  lemma SpansAreTheWords(t: Tables, text: string)
    ensures forall n :: 0 <= n < |Spans(t, text, 0)| ==>
              IsWord(t, text, Spans(t, text, 0)[n], 0)
    ensures forall n, m :: 0 <= n < m < |Spans(t, text, 0)| ==> Spans(t, text, 0)[n].end <= Spans(t, text, 0)[m].start
    ensures forall a, b :: Word(t, text, a, b) ==> Span(TermAt(t, text, a, b), a, b) in Spans(t, text, 0)
  {
    assert text[0..] == text;
    WordsFrom(t, text, 0);
    forall a, b | Word(t, text, a, b) ensures Span(TermAt(t, text, a, b), a, b) in Spans(t, text, 0) {
      WordFound(t, text, 0, a, b);
    }
  }

  function TermAt(t: Tables, s: string, a: nat, b: nat): string
    requires a < b <= |s|
  {
    if ClassOf(t, s[a]) == Wide then s[a..b] else Fold(t, s[a..b])
  }

  // A place the scan can stand at: not inside a run.
  ghost predicate Boundary(t: Tables, s: string, i: nat) {
    i <= |s| && (0 < i < |s| && ClassOf(t, s[i]) == Letter ==> ClassOf(t, s[i - 1]) != Letter)
  }

  lemma {:induction false} WordsFrom(t: Tables, text: string, i: nat)
    requires Boundary(t, text, i)
    ensures forall n :: 0 <= n < |Spans(t, text[i..], i)| ==> IsWord(t, text, Spans(t, text[i..], i)[n], i)
    ensures forall n, m :: 0 <= n < m < |Spans(t, text[i..], i)| ==>
              Spans(t, text[i..], i)[n].end <= Spans(t, text[i..], i)[m].start
    decreases |text| - i
  {
    hide RunLength, ClassOf, Spans, TermAt, Word;
    if i < |text| {
      var n := if ClassOf(t, text[i]) == Letter then RunLength(t, text[i..]) else 1;
      StepSpans(t, text, i);
      WordsFrom(t, text, i + n);
    } else {
      NoSpans(t, text);
    }
  }

  // A word at or after a place, and its term.
  ghost predicate IsWord(t: Tables, s: string, x: Span, i: nat) {
    i <= x.start && Word(t, s, x.start, x.end) && x.term == TermAt(t, s, x.start, x.end)
  }

  lemma NoSpans(t: Tables, text: string)
    ensures Spans(t, text[|text|..], |text|) == []
  {
  }

  lemma RunStarts(t: Tables, s: string)
    ensures s != "" && ClassOf(t, s[0]) == Letter ==> RunLength(t, s) > 0
  {
    hide ClassOf;
  }

  // One step of the spans, in the text's own offsets.
  lemma StepSpans(t: Tables, text: string, i: nat)
    requires i < |text| && Boundary(t, text, i)
    ensures var n := if ClassOf(t, text[i]) == Letter then RunLength(t, text[i..]) else 1;
            && 0 < n && i + n <= |text| && Boundary(t, text, i + n)
            && (ClassOf(t, text[i]) == Gap ==> Spans(t, text[i..], i) == Spans(t, text[i + n..], i + n))
            && (ClassOf(t, text[i]) != Gap ==>
                  && Word(t, text, i, i + n)
                  && Spans(t, text[i..], i) ==
                     [Span(TermAt(t, text, i, i + n), i, i + n)] + Spans(t, text[i + n..], i + n))
  {
    hide ClassOf, Fold, RunLength, Boundary, Word, TermAt, Spans;
    StepWord(t, text, i);
    StepUnfolds(t, text, i);
  }

  lemma StepWord(t: Tables, text: string, i: nat)
    requires i < |text| && Boundary(t, text, i)
    ensures var n := if ClassOf(t, text[i]) == Letter then RunLength(t, text[i..]) else 1;
            && 0 < n && i + n <= |text| && Boundary(t, text, i + n)
            && (ClassOf(t, text[i]) != Gap ==> Word(t, text, i, i + n))
  {
    hide ClassOf, Fold, RunLength;
    var s := text[i..];
    var n := if ClassOf(t, text[i]) == Letter then RunLength(t, s) else 1;
    RunStarts(t, s);
    assert s[0] == text[i];
    assert forall k :: i <= k < i + n ==> text[k] == s[k - i];
  }

  lemma StepUnfolds(t: Tables, text: string, i: nat)
    requires i < |text|
    ensures var n := if ClassOf(t, text[i]) == Letter then RunLength(t, text[i..]) else 1;
            && 0 < n && i + n <= |text|
            && (ClassOf(t, text[i]) == Gap ==> Spans(t, text[i..], i) == Spans(t, text[i + n..], i + n))
            && (ClassOf(t, text[i]) != Gap ==>
                  Spans(t, text[i..], i) ==
                  [Span(TermAt(t, text, i, i + n), i, i + n)] + Spans(t, text[i + n..], i + n))
  {
    hide ClassOf, Fold, RunLength;
    var s := text[i..];
    var n := if ClassOf(t, text[i]) == Letter then RunLength(t, s) else 1;
    RunStarts(t, s);
    assert s[0] == text[i] && s[..n] == text[i..i + n] && s[n..] == text[i + n..];
  }

  lemma {:induction false} WordFound(t: Tables, text: string, i: nat, a: nat, b: nat)
    requires Boundary(t, text, i) && i <= a && Word(t, text, a, b)
    ensures Span(TermAt(t, text, a, b), a, b) in Spans(t, text[i..], i)
    decreases |text| - i
  {
    hide RunLength, Fold, Spans, TermAt, ClassOf;
    var n := if ClassOf(t, text[i]) == Letter then RunLength(t, text[i..]) else 1;
    StepSpans(t, text, i);
    if i < a {
      Apart(t, text, i, i + n, a, b);
      WordFound(t, text, i + n, a, b);
    } else {
      OneWord(t, text, a, b, i + n);
    }
  }

  lemma Apart(t: Tables, s: string, i: nat, j: nat, a: nat, b: nat)
    requires i < j <= |s| && Word(t, s, a, b) && i < a
    requires j == i + 1 || Word(t, s, i, j)
    ensures j <= a
  {
    hide ClassOf;
  }

  lemma OneWord(t: Tables, s: string, a: nat, b: nat, c: nat)
    requires Word(t, s, a, b)
    requires ClassOf(t, s[a]) != Gap ==> Word(t, s, a, c)
    ensures ClassOf(t, s[a]) != Gap && b == c
  {
    hide ClassOf;
  }
}
