// index/spell.go, replaceTerms, and index/index.go, mark: what is rewritten and
// what is lit up are the analyzer's own spans, and nothing else moves.
module Rewrite {
  import opened Analyze

  function Terms(t: Tables, s: string): seq<string> {
    TermsOf(Spans(t, s, 0))
  }

  // ---- Terms without offsets.

  lemma {:induction false} TermsAnywhere(t: Tables, s: string, at: nat)
    ensures TermsOf(Spans(t, s, at)) == Terms(t, s)
    decreases |s|
  {
    hide ClassOf, Fold, RunLength;
    if s != "" {
      var n := if ClassOf(t, s[0]) == Letter then RunLength(t, s) else 1;
      if ClassOf(t, s[0]) == Letter { LettersFirst(t, s); }
      TermsAnywhere(t, s[n..], at + n);
      TermsAnywhere(t, s[n..], n);
      if ClassOf(t, s[0]) != Gap {
        var term := if ClassOf(t, s[0]) == Letter then Fold(t, s[..n]) else s[..n];
        TermsCons(Span(term, at, at + n), Spans(t, s[n..], at + n));
        TermsCons(Span(term, 0, n), Spans(t, s[n..], n));
      }
    }
  }

  lemma TermsCons(x: Span, rest: seq<Span>)
    ensures TermsOf([x] + rest) == [x.term] + TermsOf(rest)
  {
  }

  lemma LettersFirst(t: Tables, s: string)
    requires s != "" && ClassOf(t, s[0]) == Letter
    ensures RunLength(t, s) > 0
  {
  }

  // The first step of the terms: a gap adds nothing, and a run or a wide rune one.
  lemma TermsStep(t: Tables, s: string)
    requires s != ""
    ensures ClassOf(t, s[0]) == Gap ==> Terms(t, s) == Terms(t, s[1..])
    ensures ClassOf(t, s[0]) == Wide ==> Terms(t, s) == [[s[0]]] + Terms(t, s[1..])
    ensures ClassOf(t, s[0]) == Letter ==>
              var n := RunLength(t, s); 0 < n && Terms(t, s) == [Fold(t, s[..n])] + Terms(t, s[n..])
  {
    hide ClassOf, Fold, RunLength;
    assert s[..1] == [s[0]];
    TermsAnywhere(t, s[1..], 1);
    if ClassOf(t, s[0]) == Letter {
      var n := RunLength(t, s);
      LettersFirst(t, s);
      TermsAnywhere(t, s[n..], n);
      TermsCons(Span(Fold(t, s[..n]), 0, n), Spans(t, s[n..], n));
    } else {
      TermsCons(Span(s[..1], 0, 1), Spans(t, s[1..], 1));
    }
  }

  lemma TermsEmpty(t: Tables)
    ensures Terms(t, "") == []
  {
  }

  lemma TermsOfRun(t: Tables, s: string)
    requires s != "" && Letters(t, s, 0, |s|)
    ensures Terms(t, s) == [Fold(t, s)]
  {
    hide ClassOf, Fold;
    RunIs(t, s, |s|);
    TermsStep(t, s);
    assert s[..|s|] == s && s[|s|..] == "";
    TermsEmpty(t);
  }

  lemma TermsOfWide(t: Tables, c: char)
    requires ClassOf(t, c) == Wide
    ensures Terms(t, [c]) == [[c]]
  {
    hide ClassOf;
    TermsStep(t, [c]);
    assert [c][1..] == "";
    TermsEmpty(t);
  }

  // Two texts meet without making a word of their own.
  predicate Meet(t: Tables, x: string, y: string) {
    x != "" && y != "" && ClassOf(t, x[|x| - 1]) == Letter ==> ClassOf(t, y[0]) != Letter
  }

  lemma {:induction false} TermsConcat(t: Tables, x: string, y: string)
    requires Meet(t, x, y)
    ensures Terms(t, x + y) == Terms(t, x) + Terms(t, y)
    decreases |x|
  {
    hide ClassOf, Fold, RunLength, Terms;
    if x == "" {
      TermsEmpty(t);
      assert x + y == y;
    } else {
      var n := if ClassOf(t, x[0]) == Letter then RunLength(t, x) else 1;
      TermsStep(t, x);
      TermsStep(t, x + y);
      assert (x + y)[0] == x[0] && (x + y)[n..] == x[n..] + y && (x + y)[..n] == x[..n];
      if ClassOf(t, x[0]) == Letter {
        RunIs(t, x + y, n);
      }
      TermsConcat(t, x[n..], y);
    }
  }

  // ---- Rewriting.

  type Swap = map<string, string>

  // The loop of replaceTerms, from one span and one offset on.
  function Splice(text: string, spans: seq<Span>, swap: Swap, last: nat): string
    requires Ordered(spans, last, |text|)
  {
    if spans == [] then text[last..]
    else if spans[0].term in swap then
      text[last..spans[0].start] + swap[spans[0].term] + Splice(text, spans[1..], swap, spans[0].end)
    else
      OrderedFrom(spans[1..], last, spans[0].end, |text|);
      Splice(text, spans[1..], swap, last)
  }

  // One after the other, between two offsets.
  predicate Ordered(spans: seq<Span>, lo: nat, hi: nat): (r: bool)
    ensures r ==> lo <= hi && (spans != [] ==> spans[0].end <= hi)
  {
    if spans == [] then lo <= hi
    else lo <= spans[0].start < spans[0].end && Ordered(spans[1..], spans[0].end, hi)
  }

  lemma OrderedFrom(spans: seq<Span>, lo: nat, at: nat, hi: nat)
    requires lo <= at && Ordered(spans, at, hi)
    ensures Ordered(spans, lo, hi)
  {
  }

  lemma {:induction false} OrderedTop(spans: seq<Span>, lo: nat, hi: nat)
    requires Ordered(spans, lo, hi)
    ensures lo <= hi
    ensures forall n :: 0 <= n < |spans| ==> spans[n].start < spans[n].end <= hi
  {
    if spans != [] {
      OrderedTop(spans[1..], spans[0].end, hi);
    }
  }

  lemma {:induction false} SpansOrdered(t: Tables, text: string, i: nat)
    requires Boundary(t, text, i)
    ensures Ordered(Spans(t, text[i..], i), i, |text|)
    decreases |text| - i
  {
    hide ClassOf, RunLength, Spans, Word, TermAt;
    if i < |text| {
      var n := if ClassOf(t, text[i]) == Letter then RunLength(t, text[i..]) else 1;
      StepSpans(t, text, i);
      SpansOrdered(t, text, i + n);
      if ClassOf(t, text[i]) == Gap {
        OrderedFrom(Spans(t, text[i + n..], i + n), i, i + n, |text|);
      } else {
        OrderedCons(Span(TermAt(t, text, i, i + n), i, i + n), Spans(t, text[i + n..], i + n), i, |text|);
      }
    } else {
      NoSpans(t, text);
    }
  }

  lemma OrderedCons(x: Span, rest: seq<Span>, lo: nat, hi: nat)
    requires lo <= x.start < x.end && Ordered(rest, x.end, hi)
    ensures Ordered([x] + rest, lo, hi)
  {
    assert ([x] + rest)[1..] == rest;
  }

  lemma AllOrdered(t: Tables, text: string)
    ensures Ordered(Spans(t, text, 0), 0, |text|)
  {
    assert text[0..] == text;
    SpansOrdered(t, text, 0);
  }

  // The same word by word: every term that has one is replaced by its swap.
  function Rewritten(t: Tables, s: string, swap: Swap): string
    decreases |s|
  {
    if s == "" then ""
    else
      var n := if ClassOf(t, s[0]) == Letter then RunLength(t, s) else 1;
      var term := if ClassOf(t, s[0]) == Letter then Fold(t, s[..n]) else s[..n];
      (if ClassOf(t, s[0]) != Gap && term in swap then swap[term] else s[..n]) + Rewritten(t, s[n..], swap)
  }

  method ReplaceTerms(t: Tables, text: string, swap: Swap) returns (r: string)
    ensures r == Rewritten(t, text, swap)
  {
    hide Rewritten, Spans, Splice, Ordered;
    AllOrdered(t, text);
    SpliceIs(t, text, swap, 0, 0) by { assert text[0..] == text; }
    assert text[0..] == text && text[0..0] == "";
    var spans := AnalyzeText(t, text);
    var out, last: nat := "", 0;
    for n := 0 to |spans|
      invariant Ordered(spans[n..], last, |text|)
      invariant out + Splice(text, spans[n..], swap, last) == Rewritten(t, text, swap)
      invariant last == 0 ==> out == ""
    {
      assert spans[n..][1..] == spans[n + 1..];
      SpliceTop(text, spans[n..], swap, last, out);
      var span := spans[n];
      if span.term in swap {
        out := out + text[last..span.start];
        out := out + swap[span.term];
        last := span.end;
      }
    }
    assert spans[|spans|..] == [];
    SpliceEnd(text, swap, last);
    if last == 0 {
      return text;
    }
    r := out + text[last..];
  }

  lemma SpliceTop(text: string, spans: seq<Span>, swap: Swap, last: nat, out: string)
    requires spans != [] && Ordered(spans, last, |text|)
    ensures var x, rest := spans[0], spans[1..];
            && last <= x.start < x.end <= |text| && Ordered(rest, x.end, |text|) && Ordered(rest, last, |text|)
            && out + Splice(text, spans, swap, last) ==
               if x.term in swap then out + text[last..x.start] + swap[x.term] + Splice(text, rest, swap, x.end)
               else out + Splice(text, rest, swap, last)
  {
    var x, rest := spans[0], spans[1..];
    OrderedTop(spans, last, |text|);
    OrderedFrom(rest, last, x.end, |text|);
    if x.term in swap {
      Regroup(out, text[last..x.start] + swap[x.term], Splice(text, rest, swap, x.end));
      Regroup(out, text[last..x.start], swap[x.term]);
    }
  }

  lemma SpliceCons(text: string, x: Span, rest: seq<Span>, swap: Swap, last: nat)
    requires last <= x.start < x.end && Ordered(rest, x.end, |text|)
    ensures Ordered([x] + rest, last, |text|) && Ordered(rest, last, |text|)
    ensures Splice(text, [x] + rest, swap, last) ==
            if x.term in swap then text[last..x.start] + swap[x.term] + Splice(text, rest, swap, x.end)
            else Splice(text, rest, swap, last)
  {
    hide Ordered;
    OrderedCons(x, rest, last, |text|);
    OrderedFrom(rest, last, x.end, |text|);
    assert ([x] + rest)[1..] == rest;
  }

  lemma {:induction false} SpliceIs(t: Tables, text: string, swap: Swap, last: nat, i: nat)
    requires last <= i && Boundary(t, text, i)
    ensures Ordered(Spans(t, text[i..], i), last, |text|)
    ensures Splice(text, Spans(t, text[i..], i), swap, last) == text[last..i] + Rewritten(t, text[i..], swap)
    decreases |text| - i
  {
    hide ClassOf, RunLength, Spans, Word, Ordered, Splice, Rewritten, TermAt, Boundary;
    SpansOrdered(t, text, i);
    OrderedFrom(Spans(t, text[i..], i), last, i, |text|);
    if i < |text| {
      var n := if ClassOf(t, text[i]) == Letter then RunLength(t, text[i..]) else 1;
      var rest := Spans(t, text[i + n..], i + n);
      StepSpans(t, text, i);
      RewrittenStep(t, text, swap, i, n);
      var word, more := text[i..i + n], Rewritten(t, text[i + n..], swap);
      SpliceIs(t, text, swap, last, i + n);
      assert Splice(text, rest, swap, last) == text[last..i] + (word + more) by {
        assert text[last..i + n] == text[last..i] + word;
        Regroup(text[last..i], word, more);
      }
      if ClassOf(t, text[i]) != Gap {
        SpliceIs(t, text, swap, i + n, i + n);
        assert text[i + n..i + n] + more == more;
        SpansOrdered(t, text, i + n);
        var term := TermAt(t, text, i, i + n);
        SpliceCons(text, Span(term, i, i + n), rest, swap, last);
        if term in swap { Regroup(text[last..i], swap[term], more); }
      }
    } else {
      NoSpans(t, text);
      SpliceEnd(text, swap, last);
      assert text[i..] == "" && Rewritten(t, "", swap) == "" by { RewrittenEmpty(t, swap); }
    }
  }

  lemma Regroup(a: string, b: string, c: string)
    ensures a + (b + c) == a + b + c
  {
  }

  lemma SpliceEnd(text: string, swap: Swap, last: nat)
    requires last <= |text|
    ensures Splice(text, [], swap, last) == text[last..]
  {
  }

  lemma RewrittenEmpty(t: Tables, swap: Swap)
    ensures Rewritten(t, "", swap) == ""
  {
  }

  lemma RewrittenStep(t: Tables, text: string, swap: Swap, i: nat, n: nat)
    requires i < |text| && i + n <= |text| && n > 0
    requires n == if ClassOf(t, text[i]) == Letter then RunLength(t, text[i..]) else 1
    ensures Rewritten(t, text[i..], swap) ==
            (if ClassOf(t, text[i]) != Gap && TermAt(t, text, i, i + n) in swap then swap[TermAt(t, text, i, i + n)]
             else text[i..i + n]) + Rewritten(t, text[i + n..], swap)
  {
    hide ClassOf, RunLength, Fold;
    var s := text[i..];
    assert s[0] == text[i] && s[n..] == text[i + n..] && s[..n] == text[i..i + n];
  }

  // ---- Rewriting commutes with analysis, and exactly when.

  function Swapped(terms: seq<string>, swap: Swap): seq<string> {
    seq(|terms|, i requires 0 <= i < |terms| => if terms[i] in swap then swap[terms[i]] else terms[i])
  }

  ghost predicate Commutes(t: Tables, swap: Swap) {
    forall text :: Terms(t, Rewritten(t, text, swap)) == Swapped(Terms(t, text), swap)
  }

  predicate IsTerm(t: Tables, x: string) {
    Terms(t, x) == [x]
  }

  predicate WideTerm(t: Tables, x: string) {
    |x| == 1 && ClassOf(t, x[0]) == Wide
  }

  // Every term that is swapped becomes a term, and one that stood by itself
  // between letters becomes another that does.
  ghost predicate Suits(t: Tables, swap: Swap) {
    forall k :: k in swap && IsTerm(t, k) ==> IsTerm(t, swap[k]) && (WideTerm(t, k) ==> WideTerm(t, swap[k]))
  }

  lemma {:induction false} TermsAreShort(t: Tables, s: string)
    ensures forall i :: 0 <= i < |Terms(t, s)| ==> |Terms(t, s)[i]| <= |s|
    decreases |s|
  {
    hide ClassOf, Fold, RunLength, Terms;
    if s == "" {
      TermsEmpty(t);
    } else {
      var n := if ClassOf(t, s[0]) == Letter then RunLength(t, s) else 1;
      TermsStep(t, s);
      TermsAreShort(t, s[n..]);
    }
  }

  // A term is one wide rune, or letters that are their own lower case.
  lemma TermShape(t: Tables, x: string)
    ensures IsTerm(t, x) <==> WideTerm(t, x) || (x != "" && Letters(t, x, 0, |x|) && Fold(t, x) == x)
  {
    hide ClassOf, Fold, RunLength, Terms;
    if x == "" {
      TermsEmpty(t);
    } else {
      TermsStep(t, x);
      if WideTerm(t, x) {
        assert x == [x[0]];
        TermsOfWide(t, x[0]);
      } else if Letters(t, x, 0, |x|) {
        TermsOfRun(t, x);
      } else if IsTerm(t, x) {
        TermsAreShort(t, x[1..]);
        TermHead(t, x);
      }
    }
  }

  lemma TermHead(t: Tables, x: string)
    requires x != "" && IsTerm(t, x)
    ensures ClassOf(t, x[0]) == Gap ==> |Terms(t, x[1..])| == 1 && Terms(t, x[1..])[0] == x
    ensures ClassOf(t, x[0]) == Wide ==> |x| == 1
    ensures ClassOf(t, x[0]) == Letter ==> Letters(t, x, 0, |x|)
  {
    hide ClassOf, Fold, RunLength, Terms;
    TermsStep(t, x);
    if ClassOf(t, x[0]) == Wide {
      assert Terms(t, x)[0] == [x[0]];
    } else if ClassOf(t, x[0]) == Letter {
      var n := RunLength(t, x);
      assert Terms(t, x)[0] == Fold(t, x[..n]);
      assert n == |x|;
    }
  }

  // What begins with no letter still does.
  lemma StartsApart(t: Tables, swap: Swap, s: string)
    requires Sane(t) && Suits(t, swap)
    requires s != "" ==> ClassOf(t, s[0]) != Letter
    ensures var y := Rewritten(t, s, swap); y != "" ==> ClassOf(t, y[0]) != Letter
  {
    hide ClassOf, Fold, RunLength, Sane;
    if s != "" && ClassOf(t, s[0]) == Wide && s[..1] in swap {
      assert s[..1] == [s[0]];
      TermShape(t, s[..1]);
    }
  }

  lemma FoldIsTerm(t: Tables, s: string)
    requires Sane(t) && s != "" && Letters(t, s, 0, |s|)
    ensures IsTerm(t, Fold(t, s))
  {
    hide ClassOf, FoldRune, Terms;
    TermShape(t, Fold(t, s));
  }

  // What stands in the rewritten text for the first word or gap.
  function Piece(t: Tables, s: string, swap: Swap): string
    requires s != ""
  {
    var n := if ClassOf(t, s[0]) == Letter then RunLength(t, s) else 1;
    var term := if ClassOf(t, s[0]) == Letter then Fold(t, s[..n]) else s[..n];
    if ClassOf(t, s[0]) != Gap && term in swap then swap[term] else s[..n]
  }

  lemma PieceTerms(t: Tables, s: string, swap: Swap)
    requires Sane(t) && Suits(t, swap) && s != ""
    ensures var x := Piece(t, s, swap);
            && (ClassOf(t, s[0]) == Gap ==> x == [s[0]] && Terms(t, x) == [])
            && (ClassOf(t, s[0]) == Wide ==> WideTerm(t, x) && Terms(t, x) == Swapped([[s[0]]], swap))
            && (ClassOf(t, s[0]) == Letter ==> Terms(t, x) == Swapped([Fold(t, s[..RunLength(t, s)])], swap))
  {
    hide ClassOf, Fold, RunLength, Terms;
    var x := Piece(t, s, swap);
    assert s[..1] == [s[0]];
    match ClassOf(t, s[0])
    case Gap =>
      TermsStep(t, [s[0]]);
      assert [s[0]][1..] == "";
      TermsEmpty(t);
    case Wide =>
      TermShape(t, [s[0]]);
      TermsOfWide(t, x[0]);
      assert x == [x[0]];
    case Letter =>
      var n := RunLength(t, s);
      LettersFirst(t, s);
      TermsOfRun(t, s[..n]);
      FoldIsTerm(t, s[..n]);
  }

  lemma {:induction false} CommutesOn(t: Tables, s: string, swap: Swap)
    requires Sane(t) && Suits(t, swap)
    ensures Terms(t, Rewritten(t, s, swap)) == Swapped(Terms(t, s), swap)
    decreases |s|
  {
    hide ClassOf, Fold, RunLength, Terms, Sane, Suits, Swapped;
    if s == "" {
      TermsEmpty(t);
      assert Swapped([], swap) == [] by { SwappedConcat([], [], swap); }
    } else {
      var n := if ClassOf(t, s[0]) == Letter then RunLength(t, s) else 1;
      var x, y := Piece(t, s, swap), Rewritten(t, s[n..], swap);
      TermsStep(t, s);
      CommutesOn(t, s[n..], swap);
      PieceTerms(t, s, swap);
      if ClassOf(t, s[0]) == Letter {
        StartsApart(t, swap, s[n..]);
        SwappedConcat([Fold(t, s[..n])], Terms(t, s[n..]), swap);
      } else {
        SwappedConcat([[s[0]]], Terms(t, s[n..]), swap);
      }
      TermsConcat(t, x, y);
      assert Rewritten(t, s, swap) == x + y;
    }
  }

  lemma SwappedConcat(a: seq<string>, b: seq<string>, swap: Swap)
    ensures Swapped(a + b, swap) == Swapped(a, swap) + Swapped(b, swap)
    ensures a == [] ==> Swapped(a, swap) == []
  {
  }

  // ---- And where it does not suit, a text that shows it.

  lemma RewrittenTerm(t: Tables, k: string, swap: Swap)
    requires IsTerm(t, k) && k in swap
    ensures Rewritten(t, k, swap) == swap[k]
  {
    hide ClassOf, Fold, Terms;
    TermShape(t, k);
    if WideTerm(t, k) {
      assert k[..1] == k && k[1..] == "";
    } else {
      RunIs(t, k, |k|);
      assert k[..|k|] == k && k[|k|..] == "";
    }
  }

  lemma {:induction false} Longer(keys: set<string>) returns (n: nat)
    ensures n > 0 && forall k :: k in keys ==> |k| < n
  {
    if keys == {} {
      n := 1;
    } else {
      var k :| k in keys;
      var m := Longer(keys - {k});
      n := m + |k| + 1;
    }
  }

  function As(n: nat): (r: string)
    ensures |r| == n && forall i :: 0 <= i < n ==> r[i] == 'a'
  {
    seq(n, i => 'a')
  }

  // An ideograph turned into letters joins the letters beside it.
  lemma WideJoins(t: Tables, k: string, swap: Swap)
    requires WideTerm(t, k) && k in swap && IsTerm(t, swap[k]) && !WideTerm(t, swap[k])
    ensures exists text :: Terms(t, Rewritten(t, text, swap)) != Swapped(Terms(t, text), swap)
  {
    var n := Longer(swap.Keys);
    var a, v := As(n), swap[k];
    var text := a + k;
    assert Letters(t, a, 0, n) && Fold(t, a) == a;
    hide ClassOf, Fold, Terms, Swapped;
    assert ClassOf(t, text[n]) == Wide && text[..n] == a && text[n..] == k;
    RunIs(t, text, n);
    assert text[0] == a[0] && ClassOf(t, text[0]) == Letter;
    assert Rewritten(t, text, swap) == a + Rewritten(t, k, swap);
    TermShape(t, k);
    RewrittenTerm(t, k, swap);
    TermShape(t, v);
    assert Letters(t, a + v, 0, |a + v|);
    TermsOfRun(t, a + v);
    TermsOfRun(t, a);
    TermsConcat(t, a, k);
    assert |Swapped(Terms(t, text), swap)| == 2 by { SwappedLength(Terms(t, text), swap); }
  }

  lemma SwappedLength(terms: seq<string>, swap: Swap)
    ensures |Swapped(terms, swap)| == |terms|
  {
  }

  lemma CommutesIff(t: Tables, swap: Swap)
    requires Sane(t)
    ensures Commutes(t, swap) <==> Suits(t, swap)
  {
    hide ClassOf, Fold, Terms, Rewritten, Sane, Swapped;
    if Suits(t, swap) {
      forall text ensures Terms(t, Rewritten(t, text, swap)) == Swapped(Terms(t, text), swap) {
        CommutesOn(t, text, swap);
      }
    }
    if Commutes(t, swap) {
      forall k | k in swap && IsTerm(t, k)
        ensures IsTerm(t, swap[k]) && (WideTerm(t, k) ==> WideTerm(t, swap[k]))
      {
        RewrittenTerm(t, k, swap);
        SwappedTerm(k, swap);
        if WideTerm(t, k) && !WideTerm(t, swap[k]) {
          WideJoins(t, k, swap);
        }
      }
    }
  }

  lemma SwappedTerm(k: string, swap: Swap)
    requires k in swap
    ensures Swapped([k], swap) == [swap[k]]
  {
  }

  // The keys a correction swaps have at least three runes, so none is an
  // ideograph: with terms of the vocabulary for values, it always commutes.
  const CORRECTION_SHORTEST := 3

  lemma CorrectionCommutes(t: Tables, swap: Swap, text: string)
    requires Sane(t)
    requires forall k :: k in swap ==> |k| >= CORRECTION_SHORTEST && IsTerm(t, swap[k])
    ensures Terms(t, Rewritten(t, text, swap)) == Swapped(Terms(t, text), swap)
  {
    CommutesOn(t, text, swap);
  }

  // ---- Highlighting.

  datatype Passage = Passage(text: string, match_: bool)

  function Joined(passages: seq<Passage>): string {
    if passages == [] then "" else Joined(passages[..|passages| - 1]) + passages[|passages| - 1].text
  }

  // Where the lit passages lie, counting along the passages.
  function Lit(passages: seq<Passage>): seq<(nat, nat)> {
    if passages == [] then []
    else
      var n := |passages| - 1;
      var at := |Joined(passages[..n])|;
      Lit(passages[..n]) + if passages[n].match_ then [(at, at + |passages[n].text|)] else []
  }

  function Wanted(spans: seq<Span>, want: set<string>): seq<(nat, nat)> {
    if spans == [] then []
    else
      var n := |spans| - 1;
      Wanted(spans[..n], want) + if spans[n].term in want then [(spans[n].start, spans[n].end)] else []
  }

  // Nothing is cut where nothing is lit.
  ghost predicate Tight(passages: seq<Passage>) {
    && (forall i :: 0 <= i < |passages| ==> passages[i].text != "")
    && (forall i :: 0 < i < |passages| ==> passages[i - 1].match_ || passages[i].match_)
  }

  lemma AddPassage(passages: seq<Passage>, text: string, lit: bool)
    ensures Joined(passages + [Passage(text, lit)]) == Joined(passages) + text
    ensures Lit(passages + [Passage(text, lit)]) ==
            Lit(passages) + if lit then [(|Joined(passages)|, |Joined(passages)| + |text|)] else []
  {
    assert (passages + [Passage(text, lit)])[..|passages|] == passages;
  }

  lemma AddWanted(spans: seq<Span>, n: nat, want: set<string>)
    requires n < |spans|
    ensures Wanted(spans[..n + 1], want) ==
            Wanted(spans[..n], want) + if spans[n].term in want then [(spans[n].start, spans[n].end)] else []
  {
    assert spans[..n + 1][..n] == spans[..n];
  }

  // The passages are the text, cut, and the lit ones are exactly the words whose
  // term is wanted.
  method Mark(t: Tables, text: string, terms: seq<string>) returns (out: seq<Passage>)
    ensures Joined(out) == text
    ensures Lit(out) == Wanted(Spans(t, text, 0), set x | x in terms)
    ensures text != "" ==> Tight(out)
  {
    hide Spans, Ordered, Joined, Lit, Wanted, Tight;
    var want := set x | x in terms;
    if text == "" || terms == [] {
      out := [Passage(text, false)];
      assert [] + out == out;
      AddPassage([], text, false);
      JoinedNothing();
      NothingWanted(t, text, want);
      OnePassage(text);
      return;
    }
    AllOrdered(t, text);
    JoinedNothing();
    var spans := AnalyzeText(t, text);
    out := [];
    var last: nat := 0;
    assert spans[0..] == spans && text[..0] == "" && spans[..0] == [];
    NothingWanted(t, "", want);
    for n := 0 to |spans|
      invariant last <= |text| && Ordered(spans[n..], last, |text|)
      invariant Joined(out) == text[..last] && Lit(out) == Wanted(spans[..n], want)
      invariant Tight(out) && (out != [] ==> out[|out| - 1].match_)
    {
      OrderedNext(spans, n, last, |text|);
      AddWanted(spans, n, want);
      var s := spans[n];
      if s.term in want {
        Lights(text, out, last, s);
        if s.start > last {
          out := out + [Passage(text[last..s.start], false)];
        }
        out := out + [Passage(text[s.start..s.end], true)];
        last := s.end;
      }
    }
    assert spans[..|spans|] == spans;
    Finishes(text, out, last);
    if last < |text| {
      out := out + [Passage(text[last..], false)];
    }
  }

  lemma Finishes(text: string, out: seq<Passage>, last: nat)
    requires last <= |text| && Joined(out) == text[..last]
    requires Tight(out) && (out != [] ==> out[|out| - 1].match_)
    ensures var all := if last < |text| then out + [Passage(text[last..], false)] else out;
            Joined(all) == text && Lit(all) == Lit(out) && Tight(all)
  {
    hide Joined, Lit;
    AddPassage(out, text[last..], false);
    assert text[..last] + text[last..] == text;
    assert last == |text| ==> text[..last] == text;
  }

  lemma Lights(text: string, out: seq<Passage>, last: nat, s: Span)
    requires last <= s.start < s.end <= |text| && Joined(out) == text[..last]
    requires Tight(out) && (out != [] ==> out[|out| - 1].match_)
    ensures var more := if s.start > last then out + [Passage(text[last..s.start], false)] else out;
            var all := more + [Passage(text[s.start..s.end], true)];
            Joined(all) == text[..s.end] && Lit(all) == Lit(out) + [(s.start, s.end)] && Tight(all)
  {
    hide Joined, Lit;
    var more := if s.start > last then out + [Passage(text[last..s.start], false)] else out;
    AddPassage(out, text[last..s.start], false);
    assert text[..last] + text[last..s.start] == text[..s.start];
    AddPassage(more, text[s.start..s.end], true);
    assert text[..s.start] + text[s.start..s.end] == text[..s.end];
  }

  lemma JoinedNothing()
    ensures Joined([]) == "" && Lit([]) == [] && Tight([])
  {
  }

  lemma OnePassage(text: string)
    ensures text != "" ==> Tight([Passage(text, false)])
  {
  }

  lemma {:induction false} WantNothing(spans: seq<Span>)
    ensures Wanted(spans, {}) == []
  {
    if spans != [] { WantNothing(spans[..|spans| - 1]); }
  }

  lemma NothingWanted(t: Tables, text: string, want: set<string>)
    requires text == "" || want == {}
    ensures Wanted(Spans(t, text, 0), want) == [] && Wanted([], want) == []
  {
    if text != "" { WantNothing(Spans(t, text, 0)); }
  }

  lemma OrderedNext(spans: seq<Span>, n: nat, last: nat, hi: nat)
    requires n < |spans| && Ordered(spans[n..], last, hi)
    ensures last <= spans[n].start < spans[n].end <= hi
    ensures Ordered(spans[n + 1..], spans[n].end, hi) && Ordered(spans[n + 1..], last, hi)
  {
    assert spans[n..][1..] == spans[n + 1..];
    OrderedFrom(spans[n + 1..], last, spans[n].end, hi);
  }

  // A lit passage, analysed by itself, is the one term it was lit for.
  lemma WordIsItsTerm(t: Tables, text: string, a: nat, b: nat)
    requires Word(t, text, a, b)
    ensures Terms(t, text[a..b]) == [TermAt(t, text, a, b)]
  {
    hide ClassOf, Fold, Terms;
    if ClassOf(t, text[a]) == Wide {
      assert text[a..a + 1] == [text[a]];
      TermsOfWide(t, text[a]);
    } else {
      assert forall i :: 0 <= i < b - a ==> text[a..b][i] == text[a + i];
      TermsOfRun(t, text[a..b]);
    }
  }
}
