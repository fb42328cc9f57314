/** Texts that the parser refuses, and where it says they go wrong. */
module JsonRefuses {
  import opened Json
  import G = JsonGrammar
  import A = JsonAccepts
  import opened JsonParse
  import opened JsonScan
  import opened Options

  /** A value starts with one of these, or is a keyword. */
  predicate OpensValue(t: Text, i: nat) {
    || At(t, i) in "\"[{-0123456789"
    || Starts(t, i, "null") || Starts(t, i, "false") || Starts(t, i, "true")
  }

  /** The first visible character decides what kind of value is read, and whether any. */
  lemma FirstDecides(t: Text, i: nat)
    requires i <= |t|
    ensures !OpensValue(t, i) ==> ParseValue(t, i) == Failed(i)
    ensures var r := ParseValue(t, i);
            r.Parsed? ==>
              && (r.value.String? <==> At(t, i) == '\"') && (r.value.Array? <==> At(t, i) == '[')
              && (r.value.Object? <==> At(t, i) == '{') && (r.value.Number? <==> At(t, i) in "-0123456789")
              && (r.value.Null? <==> Starts(t, i, "null")) && (r.value.True? <==> Starts(t, i, "true"))
              && (r.value.False? <==> Starts(t, i, "false"))
  {
    NoKeyword(t, i);
    DigitChars(At(t, i));
    if i < |t| && (t[i] == '-' || IsDigit(t[i])) {
      NumberKind(t, i);
    }
    hide ParseArray, ParseObject, ParseString, ParseNumber, Starts;
  }

  lemma NumberKind(t: Text, i: nat)
    requires i < |t| && (t[i] == '-' || IsDigit(t[i]))
    ensures ParseNumber(t, i).Parsed? && ParseNumber(t, i).value.Number?
  {
    hide Significand, Exponent;
  }

  lemma DigitChars(c: char)
    ensures c in "-0123456789" <==> c == '-' || IsDigit(c)
    ensures c in "\"[{-0123456789" <==> c == '\"' || c == '[' || c == '{' || c == '-' || IsDigit(c)
  {
  }

  /** The end of the text, or a visible character. */
  predicate Halt(rest: Text) {
    rest == [] || rest[0] > ' '
  }

  lemma HaltAt(t: Text, i: nat, rest: Text)
    requires Halt(rest) && Starts(t, i, rest) && i + |rest| == |t|
    ensures Skip(t, i) == i && At(t, i) == At(rest, 0)
  {
    if rest != [] {
      StartsAt(t, i, rest, 0);
    }
  }

  /** White space at the end of the text, or before something visible. */
  lemma GapHalts(t: Text, i: nat, g: G.Gap, rest: Text)
    requires G.GapOk(g) && G.Bare(g) && Halt(rest)
    requires Starts(t, i, G.GapText(g) + rest) && i + |G.GapText(g)| + |rest| == |t|
    ensures i <= |t| && Skip(t, i) == i + |G.GapText(g)| && At(t, Skip(t, i)) == At(rest, 0)
  {
    hide *;
    A.GapBlank(g);
    StartsSplit(t, i, G.GapText(g), rest);
    A.StartsBound(t, i, G.GapText(g));
    SkipOver(t, i, G.GapText(g));
    HaltAt(t, i + |G.GapText(g)|, rest);
  }

  /** A value with white space around it and something else behind, up to the end of the text. */
  lemma ValueBefore(t: Text, i: nat, before: G.Gap, v: G.Doc, after: G.Gap, rest: Text)
    requires G.GapOk(before) && G.Bare(before) && G.GapOk(after) && G.Bare(after) && G.DocOk(v) && G.Standard(v)
    requires Halt(rest) && Starts(t, i, G.GapText(before) + (G.DocText(v) + (G.GapText(after) + rest)))
    requires i + |G.GapText(before)| + |G.DocText(v)| + |G.GapText(after)| + |rest| == |t|
    requires v.NumberDoc? ==> EndsNumber(t, i + |G.GapText(before)| + |G.DocText(v)|)
    ensures var j := i + |G.GapText(before)|;
            var end := j + |G.DocText(v)|;
            && Skip(t, i) == j && ParseValue(t, j) == Parsed(G.Meaning(v), end) && At(t, j) == G.DocText(v)[0]
            && Skip(t, end) == |t| - |rest| && At(t, Skip(t, end)) == At(rest, 0)
  {
    hide *;
    A.FirstChar(v);
    A.ShownFirst(v, G.GapText(after) + rest);
    A.GapSkipped(t, i, before, G.DocText(v) + (G.GapText(after) + rest));
    var j := i + |G.GapText(before)|;
    StartsSplit(t, j, G.DocText(v), G.GapText(after) + rest);
    A.DocReads(t, j, v);
    A.AtInside(t, j);
    GapHalts(t, j + |G.DocText(v)|, after, rest);
  }

  /** Behind a whole text nothing but white space may follow when the text must end there, and everything may when it
      need not: the error is reported at the first other character. */
  lemma TrailingText(before: G.Gap, d: G.Doc, after: G.Gap, rest: Text)
    requires G.GapOk(before) && G.Bare(before) && G.GapOk(after) && G.Bare(after) && G.DocOk(d) && G.Standard(d)
    requires rest != [] && rest[0] > ' '
    requires d.NumberDoc? ==> EndsNumber(G.GapText(after) + rest, 0)
    ensures var s := G.GapText(before) + G.DocText(d);
            var t := G.GapText(before) + (G.DocText(d) + (G.GapText(after) + rest));
            && ParseText(t, true) == Failed(|t| - |rest|)
            && ParseText(t, false) == Parsed(G.Meaning(d), |s|)
  {
    hide *;
    var a, s, b := G.GapText(before), G.DocText(d), G.GapText(after);
    var t := a + (s + (b + rest));
    A.WholeStarts(t);
    AtBehind(a, s, b + rest);
    HaltIs(rest);
    ValueBefore(t, 0, before, d, after, rest);
    TextIs(t, G.Meaning(d), |a|, |a| + |s|, |t| - |rest|);
  }

  lemma HaltIs(rest: Text)
    requires rest != [] ==> rest[0] > ' '
    ensures Halt(rest) && (rest != [] ==> At(rest, 0) == rest[0] && At(rest, 0) != '\0')
    ensures At([], 0) == '\0' && Halt([])
  {
  }

  lemma AtBehind(a: Text, s: Text, rest: Text)
    ensures EndsNumber(rest, 0) ==> EndsNumber(a + (s + rest), |a| + |s|)
  {
    var t := a + (s + rest);
    assert At(t, |a| + |s|) == At(rest, 0) && At(t, |a| + |s| + 1) == At(rest, 1);
  }

  lemma TextIs(t: Text, v: Value, start: nat, end: nat, last: nat)
    requires Skip(t, 0) == start <= |t| && ParseValue(t, start) == Parsed(v, end) && Skip(t, end) == last
    requires At(t, last) != '\0'
    ensures ParseText(t, true) == Failed(last) && ParseText(t, false) == Parsed(v, end)
  {
    hide ParseValue, Skip;
  }

  // ---- arrays ----

  /** Items with their commas, without a closing bracket. */
  function Open(es: G.Entries): Text
    requires G.EntriesOk(es) && es.Entry?
  {
    G.GapText(es.before) + (G.DocText(es.v) + (G.GapText(es.after)
      + if es.more.None? then [] else "," + Open(es.more.value)))
  }

  /** A number at the very end of the items needs an end. */
  predicate LastEnds(es: G.Entries, rest: Text)
    requires G.EntriesOk(es) && es.Entry?
  {
    if es.more.None? then es.v.NumberDoc? ==> EndsNumber(G.GapText(es.after) + rest, 0)
    else LastEnds(es.more.value, rest)
  }

  lemma OpenShape(es: G.Entries, rest: Text)
    requires G.EntriesOk(es) && G.StandardEntries(es) && es.Entry?
    ensures G.GapOk(es.before) && G.Bare(es.before) && G.GapOk(es.after) && G.Bare(es.after)
    ensures G.DocOk(es.v) && G.Standard(es.v)
    ensures es.more.Some? ==>
              && G.EntriesOk(es.more.value) && G.StandardEntries(es.more.value) && es.more.value.Entry?
              && Open(es) + rest == G.GapText(es.before) + (G.DocText(es.v) + (G.GapText(es.after)
                   + ("," + (Open(es.more.value) + rest))))
              && LastEnds(es, rest) == LastEnds(es.more.value, rest)
    ensures es.more.None? ==>
              && Open(es) + rest == G.GapText(es.before) + (G.DocText(es.v) + (G.GapText(es.after) + rest))
              && LastEnds(es, rest) == (es.v.NumberDoc? ==> EndsNumber(G.GapText(es.after) + rest, 0))
  {
    hide G.DocText, G.GapText, G.DocOk, G.Standard, G.GapOk, G.Bare, EndsNumber;
    var a, s, b := G.GapText(es.before), G.DocText(es.v), G.GapText(es.after);
    if es.more.Some? {
      Regroup(a, s, b, "," + Open(es.more.value), rest);
      assert "," + Open(es.more.value) + rest == "," + (Open(es.more.value) + rest);
    } else {
      Regroup(a, s, b, [], rest);
      assert [] + rest == rest;
    }
  }

  lemma Regroup(a: Text, b: Text, c: Text, d: Text, e: Text)
    ensures a + (b + (c + d)) + e == a + (b + (c + (d + e)))
  {
  }

  /** What may not stand behind an item. */
  predicate Stray(rest: Text) {
    rest == [] || (rest[0] > ' ' && rest[0] != ',' && rest[0] != ']')
  }

  lemma ItemsFail(t: Text, i: nat, v: Value, end: nat)
    requires i <= |t| && ParseValue(t, Skip(t, i)) == Parsed(v, end)
    ensures At(t, Skip(t, end)) != ',' && At(t, Skip(t, end)) != ']' ==> ParseItems(t, i) == Failed(Skip(t, end))
    ensures At(t, Skip(t, end)) == ',' ==>
              (var r := ParseItems(t, Skip(t, end) + 1); r.Failed? ==> ParseItems(t, i) == r)
  {
    hide ParseValue, Skip;
  }

  lemma StrayIs(rest: Text)
    requires Stray(rest)
    ensures Halt(rest) && At(rest, 0) != ',' && At(rest, 0) != ']'
  {
  }

  lemma CommaIs(rest: Text)
    ensures Halt("," + rest) && At("," + rest, 0) == ','
  {
  }

  lemma EndsAt(t: Text, i: nat, rest: Text)
    requires Starts(t, i, rest) && i + |rest| == |t| && EndsNumber(rest, 0)
    ensures EndsNumber(t, i)
  {
    assert t[i..] == rest;
    assert At(t, i) == At(rest, 0) && At(t, i + 1) == At(rest, 1);
  }

  lemma CommaEnds(t: Text, i: nat, g: G.Gap, rest: Text)
    requires G.GapOk(g) && G.Bare(g) && Starts(t, i, G.GapText(g) + ("," + rest))
    ensures EndsNumber(t, i)
  {
    A.GapEndsNumber(t, i, g, "," + rest);
  }

  /** Where a number at the end of a value's text ends. */
  lemma NumberEnds(t: Text, i: nat, a: Text, s: Text, b: Text)
    requires Starts(t, i, a + (s + b)) && i + |a| + |s| + |b| == |t|
    ensures Starts(t, i + |a| + |s|, b)
    ensures EndsNumber(b, 0) ==> EndsNumber(t, i + |a| + |s|)
  {
    hide *;
    StartsSplit(t, i, a, s + b);
    StartsSplit(t, i + |a|, s, b);
    if EndsNumber(b, 0) {
      EndsAt(t, i + |a| + |s|, b);
    }
  }

  lemma {:induction false} ItemsRefused(t: Text, from: nat, i: nat, es: G.Entries, rest: Text)
    requires G.EntriesOk(es) && G.StandardEntries(es) && es.Entry? && Stray(rest) && LastEnds(es, rest)
    requires Starts(t, i, Open(es) + rest) && i + |Open(es) + rest| == |t|
    requires from <= |t| && i <= |t| && Skip(t, from) == Skip(t, i)
    ensures ParseItems(t, from) == Failed(|t| - |rest|) && At(t, Skip(t, i)) != ']'
    decreases es
  {
    hide *;
    OpenShape(es, rest);
    A.FirstChar(es.v);
    var a, s, b := G.GapText(es.before), G.DocText(es.v), G.GapText(es.after);
    var end := i + |a| + |s|;
    if es.more.None? {
      StrayIs(rest);
      NumberEnds(t, i, a, s, b + rest);
      ValueBefore(t, i, es.before, es.v, es.after, rest);
    } else {
      var more := Open(es.more.value) + rest;
      CommaIs(more);
      NumberEnds(t, i, a, s, b + ("," + more));
      CommaEnds(t, end, es.after, more);
      ValueBefore(t, i, es.before, es.v, es.after, "," + more);
      StartsSplit(t, end, b, "," + more);
      StartsSplit(t, end + |b|, ",", more);
      ItemsRefused(t, end + |b| + 1, end + |b| + 1, es.more.value, rest);
    }
    ItemsFail(t, from, G.Meaning(es.v), end);
  }

  /** An array with a complete list of items that is cut off, or goes on with anything but a comma or its bracket, is
      refused exactly there. */
  lemma BrokenArray(es: G.Entries, rest: Text, whole: bool)
    requires G.EntriesOk(es) && G.StandardEntries(es) && es.Entry? && Stray(rest) && LastEnds(es, rest)
    ensures var t := "[" + (Open(es) + rest); ParseText(t, whole) == Failed(|t| - |rest|)
  {
    hide *;
    var t := "[" + (Open(es) + rest);
    A.WholeStarts(t);
    StartsSplit(t, 0, "[", Open(es) + rest);
    SkipTwice(t, 1);
    ItemsRefused(t, Skip(t, 1), 1, es, rest);
    OpenFails(t, |t| - |rest|);
  }

  lemma OpenFails(t: Text, at: nat)
    requires t != [] && t[0] == '[' && At(t, Skip(t, 1)) != ']' && ParseItems(t, Skip(t, 1)) == Failed(at)
    ensures forall whole :: ParseText(t, whole) == Failed(at)
  {
    hide ParseItems, Skip;
    assert Skip(t, 0) == 0 by {
      SkipStays(t, 0);
    }
    NoKeyword(t, 0);
    assert ParseArray(t, 0) == Failed(at);
  }

  // ---- objects ----

  /** A name without its colon. */
  lemma MissingColon(before: G.Gap, name: seq<G.Piece>, behind: G.Gap, rest: Text, whole: bool)
    requires G.GapOk(before) && G.Bare(before) && G.PiecesOk(name) && G.GapOk(behind) && G.Bare(behind)
    requires rest == [] || (rest[0] > ' ' && rest[0] != ':')
    ensures var t := "{" + (G.GapText(before) + (G.Quoted(name) + (G.GapText(behind) + rest)));
            ParseText(t, whole) == Failed(|t| - |rest|)
  {
    hide *;
    var a, q, b := G.GapText(before), G.Quoted(name), G.GapText(behind);
    var t := "{" + (a + (q + (b + rest)));
    A.WholeStarts(t);
    StartsSplit(t, 0, "{", a + (q + (b + rest)));
    A.QuotedShape(name);
    A.GapSkipped(t, 1, before, q + (b + rest));
    StartsSplit(t, 1 + |a|, q, b + rest);
    A.StringReads(t, 1 + |a|, name);
    HaltIs(rest);
    GapHalts(t, 1 + |a| + |q|, behind, rest);
    A.AtInside(t, 1 + |a|);
    NameFails(t, G.PiecesMeaning(name), 1 + |a|, 1 + |a| + |q|, |t| - |rest|);
  }

  lemma NameFails(t: Text, name: Text, j: nat, k: nat, at: nat)
    requires t != [] && t[0] == '{' && Skip(t, 1) == j <= |t| && At(t, j) == '\"'
    requires ParseString(t, j) == Parsed(name, k) && Skip(t, k) == at && At(t, at) != ':'
    ensures forall whole :: ParseText(t, whole) == Failed(at)
  {
    SkipTwice(t, 1);
    SkipStays(t, 0);
    NoKeyword(t, 0);
    hide ParseString, Skip;
    assert ParseMembers(t, j) == Failed(at);
    assert ParseObject(t, 0) == Failed(at);
  }
}
