/** cJSON_Minify: what it leaves of a text, and that a text with comments keeps its meaning. */
module Minify {
  import opened Options
  import opened Json
  import opened JsonParse
  import G = JsonGrammar
  import A = JsonAccepts
  import P = JsonPrinted
  import opened JsonScan

  predicate IsBlank(c: char) {
    c == ' ' || c == '\t' || c == '\r' || c == '\n'
  }

  /** The end of a double-slash comment. */
  function LineEnd(t: Text, i: nat): (r: nat)
    requires i <= |t|
    ensures i <= r <= |t|
    ensures At(t, i) != '\0' && At(t, i) != '\n' ==> i < r
    decreases |t| - i
  {
    if At(t, i) != '\0' && At(t, i) != '\n' then LineEnd(t, i + 1) else i
  }

  /** The closing mark of a multiline comment, or None if the comment never ends. */
  function CommentEnd(t: Text, i: nat): (r: Option<nat>)
    requires i <= |t|
    ensures r.Some? ==> i <= r.value && r.value + 2 <= |t|
    decreases |t| - i
  {
    if At(t, i) == '\0' then None
    else if t[i] == '*' && At(t, i + 1) == '/' then Some(i)
    else CommentEnd(t, i + 1)
  }

  function Prepend(s: Text, o: Option<Text>): Option<Text> {
    if o.None? then None else Some(s + o.value)
  }

  /** What is left of the text from i on; None if an unclosed string or comment makes the original read
      past its end. */
  function Min(t: Text, i: nat): Option<Text>
    requires i <= |t|
    decreases |t| - i
  {
    if At(t, i) == '\0' then Some([])
    else if IsBlank(t[i]) then Min(t, i + 1)
    else if t[i] == '/' && At(t, i + 1) == '/' then Min(t, LineEnd(t, i))
    else if t[i] == '/' && At(t, i + 1) == '*' then
      var end := CommentEnd(t, i);
      if end.None? then None else Min(t, end.value + 2)
    else if t[i] == '\"' then
      var end := StringEnd(t, i + 1);
      if end.None? then None else Prepend(t[i..end.value], Min(t, end.value))
    else Prepend([t[i]], Min(t, i + 1))
  }

  /** The buffer: what has been written, the unread rest of the text with its NUL, and whatever lies behind it. */
  ghost predicate Buffer(json: array<char>, t: Text, tail: Text, into: nat, i: nat, out: Text)
    reads json
  {
    && into <= i <= |t| < json.Length
    && json[..into] == out
    && (forall k | i <= k < |t| :: json[k] == t[k])
    && json[|t|] == '\0'
    && json[|t| + 1..] == tail
  }

  /** *into++ = *json++ */
  method Copy(json: array<char>, ghost t: Text, ghost tail: Text, into: nat, i: nat, ghost out: Text)
    requires Buffer(json, t, tail, into, i, out) && i < |t|
    modifies json
    ensures Buffer(json, t, tail, into + 1, i + 1, out + [t[i]])
  {
    json[into] := json[i];
    assert json[..into] == out;
    assert json[..into + 1] == json[..into] + [t[i]];
  }

  /** What the buffer says about the characters at and behind the read position. */
  lemma Reads(json: array<char>, t: Text, tail: Text, into: nat, i: nat, out: Text)
    requires Buffer(json, t, tail, into, i, out) && NulFree(t)
    ensures into <= i <= |t| < json.Length && |out| == into
    ensures json[i] == At(t, i) && (json[i] == '\0' <==> i == |t|)
    ensures i < |t| ==> json[i + 1] == At(t, i + 1)
  {
  }

  /** One round inside a string, where a backslash at the end of the text takes the terminator along. */
  lemma StringGoesOn(t: Text, i: nat)
    requires NulFree(t) && i < |t| && t[i] != '\"'
    ensures if t[i] == '\\' && i + 1 == |t| then StringEnd(t, i).None?
            else
              var j := if t[i] == '\\' then i + 2 else i + 1;
              j <= |t| && StringEnd(t, j) == StringEnd(t, i)
  {
  }

  lemma StringCloses(t: Text, i: nat)
    requires NulFree(t) && i <= |t| && (i == |t| || t[i] == '\"')
    ensures StringEnd(t, i) == if i == |t| then None else Some(i + 1)
  {
  }

  /** *into++ = *json++ at the terminator: from here on the original reads behind the text. */
  method CopyTerminator(json: array<char>, ghost t: Text, ghost tail: Text, into: nat, i: nat, ghost out: Text)
    requires Buffer(json, t, tail, into, i, out) && i == |t|
    modifies json
    ensures |t| < json.Length && json[|t| + 1..] == tail
  {
    json[into] := json[i];
  }

  /** `done` is `out` and what has been copied of the string that started at i0. */
  ghost predicate Copied(done: Text, out: Text, t: Text, i0: nat, i: nat) {
    i0 <= i <= |t| && done == out + t[i0..i]
  }

  lemma CopiedMore(done: Text, out: Text, t: Text, i0: nat, i: nat)
    requires Copied(done, out, t, i0, i) && i < |t|
    ensures Copied(done + [t[i]], out, t, i0, i + 1)
  {
    assert t[i0..i] + [t[i]] == t[i0..i + 1];
  }

  method CopyMore(json: array<char>, ghost t: Text, ghost tail: Text, into: nat, i: nat, ghost out: Text,
                  ghost i0: nat, ghost done: Text)
    returns (ghost more: Text)
    requires NulFree(t) && i < |t| && Buffer(json, t, tail, into, i, done) && Copied(done, out, t, i0, i)
    modifies json
    ensures Buffer(json, t, tail, into + 1, i + 1, more) && Copied(more, out, t, i0, i + 1)
    ensures |t| < json.Length && json[i + 1] == At(t, i + 1)
  {
    Copy(json, t, tail, into, i, done);
    more := done + [t[i]];
    CopiedMore(done, out, t, i0, i);
    Reads(json, t, tail, into + 1, i + 1, more);
  }

  lemma CopiedNone(out: Text, t: Text, i: nat)
    requires i <= |t|
    ensures Copied(out, out, t, i, i)
  {
    assert out + t[i..i] == out;
  }

  /** One round inside a string: a character, or a backslash and the character behind it. `past` says that this
      was the terminator. */
  method CopyUnit(json: array<char>, ghost t: Text, ghost tail: Text, into0: nat, j: nat, ghost out: Text,
                  ghost i0: nat, ghost done0: Text)
    returns (into: nat, i: nat, past: bool, ghost done: Text)
    requires NulFree(t) && Buffer(json, t, tail, into0, j, done0) && Copied(done0, out, t, i0, j)
    requires j < |t| && t[j] != '\"' && j < json.Length && json[j] == t[j]
    modifies json
    ensures |t| < json.Length && j < i && into - into0 == i - j
    ensures !past ==>
              && i <= |t| && json[i] == At(t, i) && StringEnd(t, i) == StringEnd(t, j)
              && Buffer(json, t, tail, into, i, done) && Copied(done, out, t, i0, i)
    ensures past ==> i == |t| + 1 && StringEnd(t, j).None? && json[|t| + 1..] == tail
  {
    StringGoesOn(t, j);
    hide Buffer, StringEnd, Copied;
    into, i, past, done := into0, j, false, done0;
    if json[i] == '\\' {
      done := CopyMore(json, t, tail, into, i, out, i0, done);
      into, i := into + 1, i + 1;
      past := json[i] == '\0';
    }
    if past {
      CopyTerminator(json, t, tail, into, i, done);
    } else {
      done := CopyMore(json, t, tail, into, i, out, i0, done);
    }
    into, i := into + 1, i + 1;
  }

  /** The string branch: everything from the opening quote through the closing one is copied, or through the
      terminator if there is no closing one. */
  method CopyString(json: array<char>, ghost t: Text, ghost tail: Text, into0: nat, i0: nat, ghost out: Text)
    returns (into: nat, i: nat, past: bool, ghost done: Text)
    requires NulFree(t) && Buffer(json, t, tail, into0, i0, out) && i0 < |t|
    modifies json
    ensures past <==> StringEnd(t, i0 + 1).None?
    ensures |t| < json.Length && into - into0 == i - i0
    ensures !past ==>
              && i == StringEnd(t, i0 + 1).value
              && Buffer(json, t, tail, into, i, done) && Copied(done, out, t, i0, i)
    ensures past ==> i == |t| + 1 && json[|t| + 1..] == tail
  {
    hide Buffer, StringEnd, Copied;
    CopiedNone(out, t, i0);
    done := CopyMore(json, t, tail, into0, i0, out, i0, out);
    into, i, past := into0 + 1, i0 + 1, false;
    while !past && json[i] != '\0' && json[i] != '\"'
      invariant |t| < json.Length && i0 < i && into - into0 == i - i0
      invariant !past ==>
                  && i <= |t| && json[i] == At(t, i) && StringEnd(t, i) == StringEnd(t, i0 + 1)
                  && Buffer(json, t, tail, into, i, done) && Copied(done, out, t, i0, i)
      invariant past ==> i == |t| + 1 && StringEnd(t, i0 + 1).None? && json[|t| + 1..] == tail
      decreases |t| + 1 - i
    {
      into, i, past, done := CopyUnit(json, t, tail, into, i, out, i0, done);
    }
    if !past {
      StringCloses(t, i);
      past := json[i] == '\0';
      if past {
        CopyTerminator(json, t, tail, into, i, done);
      } else {
        done := CopyMore(json, t, tail, into, i, out, i0, done);
      }
      into, i := into + 1, i + 1;
    }
  }

  /** The comment branches only move the read position. */
  method SkipLine(json: array<char>, ghost t: Text, i0: nat) returns (i: nat)
    requires NulFree(t) && i0 <= |t| < json.Length && json[|t|] == '\0' && forall k | i0 <= k < |t| :: json[k] == t[k]
    ensures i == LineEnd(t, i0)
  {
    i := i0;
    while json[i] != '\0' && json[i] != '\n'
      invariant i0 <= i <= |t| && LineEnd(t, i) == LineEnd(t, i0)
      decreases |t| - i
    {
      i := i + 1;
    }
  }

  method SkipComment(json: array<char>, ghost t: Text, i0: nat) returns (i: nat, past: bool)
    requires NulFree(t) && i0 <= |t| < json.Length && json[|t|] == '\0' && forall k | i0 <= k < |t| :: json[k] == t[k]
    ensures past <==> CommentEnd(t, i0).None?
    ensures i == if past then |t| + 2 else CommentEnd(t, i0).value + 2
  {
    i := i0;
    while json[i] != '\0' && !(json[i] == '*' && json[i + 1] == '/')
      invariant i0 <= i <= |t| && CommentEnd(t, i) == CommentEnd(t, i0)
      decreases |t| - i
    {
      i := i + 1;
    }
    past := json[i] == '\0';
    i := i + 2;
  }

  /** The buffer before the first step. */
  lemma Loaded(json: array<char>, t: Text)
    requires |t| < json.Length && json[..|t| + 1] == t + ['\0']
    ensures Buffer(json, t, json[|t| + 1..], 0, 0, [])
  {
    var all := json[..|t| + 1];
    assert all[|t|] == '\0';
    assert forall k | 0 <= k < |t| :: all[k] == t[k];
  }

  /** Dropping characters of the text from the unread part. */
  lemma Skipped(json: array<char>, t: Text, tail: Text, into: nat, i: nat, j: nat, out: Text)
    requires Buffer(json, t, tail, into, i, out) && i <= j <= |t|
    ensures Buffer(json, t, tail, into, j, out)
  {
  }

  lemma SkipsAhead(json: array<char>, t: Text, tail: Text, into: nat, i: nat, out: Text)
    requires Buffer(json, t, tail, into, i, out)
    ensures i <= |t| < json.Length && json[|t|] == '\0' && forall k | i <= k < |t| :: json[k] == t[k]
    ensures json[|t| + 1..] == tail
  {
  }

  /** One round of the outer loop: the branch for the character at i. */
  method Round(json: array<char>, ghost t: Text, ghost tail: Text, into0: nat, i0: nat, ghost out: Text)
    returns (into: nat, i: nat, past: bool, ghost more: Text)
    requires NulFree(t) && Buffer(json, t, tail, into0, i0, out) && i0 < |t|
    modifies json
    ensures |t| < json.Length && (past <==> i > |t|)
    ensures !past ==>
              && i0 < i && Buffer(json, t, tail, into, i, out + more) && Min(t, i0) == Prepend(more, Min(t, i))
    ensures past ==> Min(t, i0).None? && json[|t| + 1..] == tail
  {
    hide LineEnd, CommentEnd, StringEnd, Buffer;
    Reads(json, t, tail, into0, i0, out);
    SkipsAhead(json, t, tail, into0, i0, out);
    into, i, past, more := into0, i0, false, [];
    if IsBlank(json[i]) {
      i := i + 1;
      Skipped(json, t, tail, into0, i0, i, out);
    } else if json[i] == '/' && json[i + 1] == '/' {
      i := SkipLine(json, t, i);
      Skipped(json, t, tail, into0, i0, i, out);
    } else if json[i] == '/' && json[i + 1] == '*' {
      i, past := SkipComment(json, t, i);
      if !past {
        Skipped(json, t, tail, into0, i0, i, out);
      }
    } else if json[i] == '\"' {
      ghost var done;
      into, i, past, done := CopyString(json, t, tail, into, i, out);
      more := if past then [] else t[i0..i];
    } else {
      Copy(json, t, tail, into, i, out);
      into, i, more := into + 1, i + 1, [t[i]];
    }
    assert out + [] == out;
    PrependNone(Min(t, if past then i0 else i));
  }

  lemma PrependNone(o: Option<Text>)
    ensures Prepend([], o) == o
  {
    if o.Some? {
      assert [] + o.value == o.value;
    }
  }

  /** *into = 0 */
  method SetEnd(json: array<char>, ghost t: Text, ghost tail: Text, into: nat, i: nat, ghost out: Text)
    requires Buffer(json, t, tail, into, i, out)
    modifies json
    ensures |t| < json.Length && into < json.Length && json[..into + 1] == out + ['\0'] && json[|t| + 1..] == tail
  {
    json[into] := '\0';
    assert json[..into] == out;
  }

  /** cJSON_Minify, in place: `json` holds the text and its terminating NUL, possibly with more behind it. The
      write position never passes the read position (see Buffer), and nothing behind the NUL is touched. `i` is
      the read position at the end. It passes the terminator, so that the original reads on behind the text,
      exactly when a string or a block comment is not closed (Min is None); the model stops there. */
  method MinifyInPlace(json: array<char>, ghost t: Text) returns (into: nat, i: nat)
    requires NulFree(t) && |t| < json.Length && json[..|t| + 1] == t + ['\0']
    modifies json
    ensures i > |t| <==> Min(t, 0).None?
    ensures Min(t, 0).Some? ==> i == |t| && into <= |t| && json[..into + 1] == Min(t, 0).value + ['\0']
    ensures json[|t| + 1..] == old(json[|t| + 1..])
  {
    ghost var out: Text, tail := [], json[|t| + 1..];
    Loaded(json, t);
    PrependNone(Min(t, 0));
    into, i := 0, 0;
    var past := false;
    while !past && json[i] != '\0'
      invariant past <==> i > |t|
      invariant !past ==> Buffer(json, t, tail, into, i, out) && Min(t, 0) == Prepend(out, Min(t, i))
      invariant past ==> Min(t, 0).None? && json[|t| + 1..] == tail
      decreases |t| - i
    {
      hide Buffer, Min, Prepend;
      Reads(json, t, tail, into, i, out);
      ghost var more, before := [], i;
      into, i, past, more := Round(json, t, tail, into, i, out);
      if past {
        PrependFails(out, Min(t, before));
      } else {
        PrependTwice(out, more, Min(t, i));
        out := out + more;
        Reads(json, t, tail, into, i, out);
      }
    }
    if !past {
      Reads(json, t, tail, into, i, out);
      assert out + [] == out;
      SetEnd(json, t, tail, into, i, out);
    }
  }

  lemma PrependFails(s: Text, o: Option<Text>)
    requires o.None?
    ensures Prepend(s, o).None?
  {
  }

  // ---- where comments end ----

  /** A line comment ends at the first newline, or with the text. */
  lemma {:induction false} LineEndIsFirst(t: Text, i: nat)
    requires NulFree(t) && i <= |t|
    ensures var r := LineEnd(t, i); (r == |t| || t[r] == '\n') && forall k | i <= k < r :: t[k] != '\n'
    decreases |t| - i
  {
    if i < |t| && t[i] != '\n' {
      LineEndIsFirst(t, i + 1);
    }
  }

  ghost predicate MarkAt(t: Text, k: int) {
    0 <= k < |t| - 1 && t[k] == '*' && t[k + 1] == '/'
  }

  /** A block comment ends at the first closing mark; there is none only if the text has none. */
  lemma {:induction false} CommentEndIsFirst(t: Text, i: nat)
    requires NulFree(t) && i <= |t|
    ensures var r := CommentEnd(t, i);
            && (r.Some? ==> MarkAt(t, r.value))
            && forall k | i <= k < (if r.Some? then r.value else |t|) :: !MarkAt(t, k)
    decreases |t| - i
  {
    if i < |t| && !MarkAt(t, i) {
      CommentEndIsFirst(t, i + 1);
    }
  }

  /** A block comment is skipped as a whole exactly unless its inside starts with a slash: the search for the
      closing mark starts at the opening one, whose star the slash then completes. */
  lemma CommentSkipped(t: Text, i: nat, s: Text)
    requires NulFree(t) && G.NoMark(s) && Starts(t, i, "/*" + (s + "*/"))
    ensures CommentEnd(t, i) == Some(i + 2 + |s|) <==> !(s != [] && s[0] == '/')
    ensures s != [] && s[0] == '/' ==> CommentEnd(t, i) == Some(i + 1)
  {
    var c := "/*" + (s + "*/");
    CommentEndIsFirst(t, i);
    hide CommentEnd;
    forall k | 0 <= k < |c|
      ensures t[i + k] == c[k]
    {
      StartsAt(t, i, c, k);
    }
    assert c[2 + |s|] == '*' && c[3 + |s|] == '/' && MarkAt(t, i + 2 + |s|);
    forall k | i <= k < i + 2 + |s|
      ensures MarkAt(t, k) <==> k == i + 1 && s != [] && s[0] == '/'
    {
      assert t[k] == c[k - i] && t[k + 1] == c[k - i + 1];
      if k >= i + 2 {
        assert c[k - i] == s[k - i - 2] && c[k - i + 1] == (s + "*/")[k - i - 1];
      }
    }
  }

  /** Between brackets, such a comment leaves its end behind. */
  lemma ClosesEarly()
    ensures Min("[/*/*/]", 0) == Some("[*/]")
  {
    var t := "[/*/*/]";
    assert "]" + [] == "]" && "/" + "]" == "/]" && "*" + "/]" == "*/]" && "[" + "*/]" == "[*/]";
    assert Min(t, 7) == Some([]);
    assert Min(t, 6) == Prepend("]", Min(t, 7));
    assert Min(t, 5) == Prepend("/", Min(t, 6));
    assert Min(t, 4) == Prepend("*", Min(t, 5));
    assert CommentEnd(t, 1) == CommentEnd(t, 2) == Some(2);
    assert Min(t, 1) == Min(t, 4);
    assert Min(t, 0) == Prepend("[", Min(t, 1));
  }

  // ---- texts with comments ----

  /** A document without anything between its tokens. */
  function Compact(d: G.Doc): G.Doc {
    match d
    case ArrayDoc(items) => G.ArrayDoc(CompactEntries(items))
    case ObjectDoc(members) => G.ObjectDoc(CompactPairs(members))
    case _ => d
  }

  function CompactEntries(es: G.Entries): G.Entries {
    match es
    case NoEntries(_) => G.NoEntries([])
    case Entry(_, v, _, more) =>
      G.Entry([], Compact(v), [], if more.None? then None else Some(CompactEntries(more.value)))
  }

  function CompactPairs(ps: G.Pairs): G.Pairs {
    match ps
    case NoPairs(_) => G.NoPairs([])
    case Named(_, name, _, _, v, _, more) =>
      G.Named([], name, [], [], Compact(v), [], if more.None? then None else Some(CompactPairs(more.value)))
  }

  lemma {:induction false} CompactOk(d: G.Doc)
    requires G.DocOk(d)
    ensures G.DocOk(Compact(d)) && G.Standard(Compact(d)) && G.Meaning(Compact(d)) == G.Meaning(d)
    decreases d
  {
    hide G.NumeralMeaning, G.NumeralOk, G.PiecesMeaning, G.PiecesOk;
    match d
    case ArrayDoc(items) => CompactEntriesOk(items);
    case ObjectDoc(members) => CompactPairsOk(members);
    case _ =>
  }

  lemma {:induction false} CompactEntriesOk(es: G.Entries)
    requires G.EntriesOk(es)
    ensures var c := CompactEntries(es);
            && G.EntriesOk(c) && G.StandardEntries(c) && G.EntriesMeaning(c) == G.EntriesMeaning(es)
            && (c.Entry? <==> es.Entry?)
    decreases es
  {
    hide G.DocOk, G.Standard, G.Meaning;
    if es.Entry? {
      CompactOk(es.v);
      if es.more.Some? {
        CompactEntriesOk(es.more.value);
      }
    }
  }

  lemma {:induction false} CompactPairsOk(ps: G.Pairs)
    requires G.PairsOk(ps)
    ensures var c := CompactPairs(ps);
            && G.PairsOk(c) && G.StandardPairs(c) && G.PairsMeaning(c) == G.PairsMeaning(ps)
            && (c.Named? <==> ps.Named?)
    decreases ps
  {
    hide G.DocOk, G.Standard, G.Meaning, G.PiecesOk, G.PiecesMeaning;
    if ps.Named? {
      CompactOk(ps.v);
      if ps.more.Some? {
        CompactPairsOk(ps.more.value);
      }
    }
  }

  /** A character that is copied on its own. */
  predicate IsPlain(c: char) {
    c != '\0' && !IsBlank(c) && c != '/' && c != '\"'
  }

  predicate AllPlain(s: Text) {
    forall k | 0 <= k < |s| :: IsPlain(s[k])
  }

  lemma {:induction false} MinPlain(t: Text, i: nat, s: Text)
    requires Starts(t, i, s) && AllPlain(s)
    ensures i + |s| <= |t| && Min(t, i) == Prepend(s, Min(t, i + |s|))
    decreases |s|
  {
    if s == [] {
      PrependNone(Min(t, i));
    } else {
      StartsAt(t, i, s, 0);
      assert s == [s[0]] + s[1..];
      StartsSplit(t, i, [s[0]], s[1..]);
      MinPlain(t, i + 1, s[1..]);
      PrependTwice([s[0]], s[1..], Min(t, i + |s|));
    }
  }

  lemma PrependTwice(a: Text, b: Text, o: Option<Text>)
    ensures Prepend(a, Prepend(b, o)) == Prepend(a + b, o)
  {
    if o.Some? {
      assert a + (b + o.value) == a + b + o.value;
    }
  }

  /** The newline of a line comment, reached from its first slash. */
  lemma {:induction false} LineEndOf(t: Text, i: nat, s: Text)
    requires NulFree(s) && '\n' !in s && Starts(t, i, s + "\n")
    ensures LineEnd(t, i) == i + |s|
    decreases |s|
  {
    StartsAt(t, i, s + "\n", 0);
    if s != [] {
      assert s + "\n" == [s[0]] + (s[1..] + "\n");
      StartsSplit(t, i, [s[0]], s[1..] + "\n");
      LineEndOf(t, i + 1, s[1..]);
    }
  }

  /** The closing mark of a block comment, reached from its first slash. */
  lemma {:induction false} CommentEndOf(t: Text, i: nat, s: Text)
    requires NulFree(s) && G.NoMark(s) && Starts(t, i, s + "*/")
    ensures CommentEnd(t, i) == Some(i + |s|)
    decreases |s|
  {
    StartsAt(t, i, s + "*/", 0);
    StartsAt(t, i, s + "*/", 1);
    if s != [] {
      assert s + "*/" == [s[0]] + (s[1..] + "*/");
      StartsSplit(t, i, [s[0]], s[1..] + "*/");
      assert G.NoMark(s[1..]) by {
        assert forall k | 0 <= k < |s| - 1 :: s[1..][k] == s[k + 1];
      }
      CommentEndOf(t, i + 1, s[1..]);
    }
  }

  lemma MinLine(t: Text, i: nat, s: Text)
    requires NulFree(s) && '\n' !in s && Starts(t, i, "//" + s + "\n")
    ensures i + |s| + 3 <= |t| && Min(t, i) == Min(t, i + |s| + 3)
  {
    LineEndOf(t, i, "//" + s);
    StartsAt(t, i, "//" + s + "\n", 0);
    StartsAt(t, i, "//" + s + "\n", 1);
    StartsAt(t, i, "//" + s + "\n", |s| + 2);
    hide LineEnd;
    assert Min(t, i + |s| + 2) == Min(t, i + |s| + 3);
  }

  lemma MinBlock(t: Text, i: nat, s: Text)
    requires G.TriviaOk(G.Block(s)) && Starts(t, i, "/*" + s + "*/")
    ensures i + |s| + 4 <= |t| && Min(t, i) == Min(t, i + |s| + 4)
  {
    var inside := "/*" + s;
    assert forall k | 0 <= k < |inside| - 1 :: !(inside[k] == '*' && inside[k + 1] == '/') by {
      assert forall k | 2 <= k < |inside| :: inside[k] == s[k - 2];
    }
    CommentEndOf(t, i, inside);
    StartsAt(t, i, inside + "*/", 0);
    StartsAt(t, i, inside + "*/", 1);
    hide CommentEnd;
  }

  lemma MinWhite(t: Text, i: nat, c: char)
    requires c in " \t\n\r" && Starts(t, i, [c])
    ensures i + 1 <= |t| && Min(t, i) == Min(t, i + 1)
  {
    StartsAt(t, i, [c], 0);
  }

  lemma TriviaShape(x: G.Trivia)
    requires G.TriviaOk(x)
    ensures x.White? ==> x.ch in " \t\n\r" && G.TriviaText(x) == [x.ch]
    ensures x.Line? ==> NulFree(x.s) && '\n' !in x.s && G.TriviaText(x) == "//" + x.s + "\n"
    ensures x.Line? ==> |G.TriviaText(x)| == |x.s| + 3
    ensures x.Block? ==> G.TriviaText(x) == "/*" + x.s + "*/" && |G.TriviaText(x)| == |x.s| + 4
  {
  }

  lemma MinTrivia(t: Text, i: nat, x: G.Trivia)
    requires G.TriviaOk(x) && Starts(t, i, G.TriviaText(x))
    ensures i + |G.TriviaText(x)| <= |t| && Min(t, i) == Min(t, i + |G.TriviaText(x)|)
  {
    hide *;
    TriviaShape(x);
    match x
    case White(c) => MinWhite(t, i, c);
    case Line(s) => MinLine(t, i, s);
    case Block(s) => MinBlock(t, i, s);
  }

  /** White space and comments leave nothing. */
  lemma {:induction false} MinGap(t: Text, i: nat, g: G.Gap)
    requires G.GapOk(g) && Starts(t, i, G.GapText(g))
    ensures i + |G.GapText(g)| <= |t| && Min(t, i) == Min(t, i + |G.GapText(g)|)
    decreases |g|
  {
    hide Min, Starts, G.TriviaOk, G.TriviaText;
    A.StartsBound(t, i, G.GapText(g));
    if g != [] {
      var x := G.TriviaText(g[0]);
      StartsSplit(t, i, x, G.GapText(g[1..]));
      MinTrivia(t, i, g[0]);
      MinGap(t, i + |x|, g[1..]);
    }
  }

  /** Escapes hide the quotes and backslashes of a string from the scan for its closing quote. */
  lemma StringEndOverPiece(t: Text, i: nat, p: G.Piece)
    requires G.PieceOk(p) && Starts(t, i, G.PieceText(p))
    ensures i + |G.PieceText(p)| <= |t| && StringEnd(t, i) == StringEnd(t, i + |G.PieceText(p)|)
  {
    hide *;
    PieceShape(p);
    match p
    case Raw(c) => StringEndOverRaw(t, i, c);
    case Short(c) => StringEndOverShort(t, i, c);
    case Code(q) => StringEndOverCode(t, i, q);
    case Surrogates(hi, lo) =>
      A.SurrogatesShape(hi, lo);
      StartsSplit(t, i, "\\u" + G.QuadText(hi), "\\u" + G.QuadText(lo));
      StringEndOverCode(t, i, hi);
      StringEndOverCode(t, i + 6, lo);
  }

  lemma PieceShape(p: G.Piece)
    requires G.PieceOk(p)
    ensures p.Raw? ==> p.ch >= ' ' && p.ch != '\"' && p.ch != '\\' && G.PieceText(p) == [p.ch]
    ensures p.Short? ==> p.letter != '\0' && G.PieceText(p) == ['\\', p.letter]
    ensures p.Code? ==> G.QuadOk(p.q) && G.PieceText(p) == "\\u" + G.QuadText(p.q)
  {
    hide G.QuadText, G.QuadValue;
  }

  lemma StringEndOverRaw(t: Text, i: nat, c: char)
    requires c >= ' ' && c != '\"' && c != '\\' && Starts(t, i, [c])
    ensures i + 1 <= |t| && StringEnd(t, i) == StringEnd(t, i + 1)
  {
    StartsAt(t, i, [c], 0);
  }

  lemma StringEndOverShort(t: Text, i: nat, c: char)
    requires c != '\0' && Starts(t, i, ['\\', c])
    ensures i + 2 <= |t| && StringEnd(t, i) == StringEnd(t, i + 2)
  {
    StartsAt(t, i, ['\\', c], 0);
    StartsAt(t, i, ['\\', c], 1);
  }

  lemma StringEndOverCode(t: Text, i: nat, q: G.Quad)
    requires G.QuadOk(q) && Starts(t, i, "\\u" + G.QuadText(q))
    ensures i + 6 <= |t| && StringEnd(t, i) == StringEnd(t, i + 6)
  {
    var s := "\\u" + G.QuadText(q);
    A.NoHexMark(q.a);
    A.NoHexMark(q.b);
    A.NoHexMark(q.c);
    A.NoHexMark(q.d);
    hide G.HexText;
    forall k: nat | k < 6
      ensures At(t, i + k) == s[k]
    {
      StartsAt(t, i, s, k);
    }
    assert StringEnd(t, i) == StringEnd(t, i + 2);
    assert StringEnd(t, i + 2) == StringEnd(t, i + 3);
    assert StringEnd(t, i + 3) == StringEnd(t, i + 4);
    assert StringEnd(t, i + 4) == StringEnd(t, i + 5);
    assert StringEnd(t, i + 5) == StringEnd(t, i + 6);
  }

  lemma {:induction false} StringEndOfPieces(t: Text, i: nat, ps: seq<G.Piece>)
    requires G.PiecesOk(ps) && Starts(t, i, G.PiecesText(ps) + "\"")
    ensures StringEnd(t, i) == Some(i + |G.PiecesText(ps)| + 1)
    decreases |ps|
  {
    hide Starts, G.PieceText, G.PieceOk;
    if ps == [] {
      assert G.PiecesText(ps) + "\"" == "\"";
      StartsAt(t, i, "\"", 0);
    } else {
      var p, rest := G.PieceText(ps[0]), G.PiecesText(ps[1..]);
      assert G.PiecesText(ps) + "\"" == p + (rest + "\"");
      StartsSplit(t, i, p, rest + "\"");
      hide StringEnd;
      StringEndOverPiece(t, i, ps[0]);
      StringEndOfPieces(t, i + |p|, ps[1..]);
    }
  }

  /** Strings stay as they are. */
  lemma MinQuoted(t: Text, i: nat, ps: seq<G.Piece>)
    requires G.PiecesOk(ps) && Starts(t, i, G.Quoted(ps))
    ensures i + |G.Quoted(ps)| <= |t| && Min(t, i) == Prepend(G.Quoted(ps), Min(t, i + |G.Quoted(ps)|))
  {
    hide *;
    A.QuotedShape(ps);
    StartsSplit(t, i, "\"", G.PiecesText(ps) + "\"");
    StartsAt(t, i, "\"", 0);
    StringEndOfPieces(t, i + 1, ps);
    MinToken(t, i, G.Quoted(ps));
  }

  lemma MinToken(t: Text, i: nat, q: Text)
    requires |q| > 0 && Starts(t, i, q) && At(t, i) == '\"' && StringEnd(t, i + 1) == Some(i + |q|)
    ensures i + |q| <= |t| && Min(t, i) == Prepend(q, Min(t, i + |q|))
  {
    hide StringEnd;
  }

  lemma DigitsPlain(ds: seq<nat>)
    requires G.DigitsOk(ds)
    ensures AllPlain(G.DigitsText(ds))
  {
    forall k | 0 <= k < |ds|
      ensures IsPlain(G.DigitsText(ds)[k])
    {
      A.DigitReads(ds[k]);
    }
  }

  lemma PlainJoin(a: Text, b: Text)
    requires AllPlain(a) && AllPlain(b)
    ensures AllPlain(a + b)
  {
  }

  lemma NumeralPlain(n: G.Numeral)
    requires G.NumeralOk(n)
    ensures AllPlain(G.NumeralText(n))
  {
    hide G.DigitsText, G.Decimal;
    DigitsPlain(n.whole);
    DigitsPlain(n.frac);
    PlainJoin(".", G.DigitsText(n.frac));
    ExpPlain(n.exp);
    PlainJoin(G.FracText(n.frac), G.ExpText(n.exp));
    PlainJoin(G.DigitsText(n.whole), G.FracText(n.frac) + G.ExpText(n.exp));
    hide G.FracText, G.ExpText;
    PlainJoin(if n.negative then "-" else "", G.DigitsText(n.whole) + (G.FracText(n.frac) + G.ExpText(n.exp)));
  }

  lemma ExpPlain(e: Option<G.Exp>)
    requires e.Some? ==> G.DigitsOk(e.value.digits)
    ensures AllPlain(G.ExpText(e))
  {
    hide G.DigitsText;
    if e.Some? {
      DigitsPlain(e.value.digits);
      PlainJoin(G.SignText(e.value.sign), G.DigitsText(e.value.digits));
      PlainJoin(if e.value.upper then "E" else "e", G.SignText(e.value.sign) + G.DigitsText(e.value.digits));
    }
  }

  lemma Marks()
    ensures AllPlain("[") && AllPlain("{") && AllPlain("]") && AllPlain("}") && AllPlain(",") && AllPlain(":")
    ensures AllPlain("null") && AllPlain("false") && AllPlain("true")
  {
  }

  /** One mark, then what is known of the rest. */
  lemma MinMark(t: Text, i: nat, mark: Text, rest: Text, out: Text)
    requires Starts(t, i, mark + rest) && AllPlain(mark)
    requires i + |mark| + |rest| <= |t| ==> Min(t, i + |mark|) == Prepend(out, Min(t, i + |mark| + |rest|))
    ensures i + |mark| + |rest| <= |t| && Min(t, i) == Prepend(mark + out, Min(t, i + |mark| + |rest|))
  {
    hide *;
    StartsSplit(t, i, mark, rest);
    A.StartsBound(t, i + |mark|, rest);
    MinPlain(t, i, mark);
    PrependTwice(mark, out, Min(t, i + |mark| + |rest|));
  }

  /** A gap, then what is known of the rest. */
  lemma MinBehind(t: Text, i: nat, g: G.Gap, rest: Text, out: Text)
    requires G.GapOk(g) && Starts(t, i, G.GapText(g) + rest)
    requires var j := i + |G.GapText(g)|;
             j + |rest| <= |t| ==> Min(t, j) == Prepend(out, Min(t, j + |rest|))
    ensures var end := i + |G.GapText(g)| + |rest|; end <= |t| && Min(t, i) == Prepend(out, Min(t, end))
  {
    hide *;
    StartsSplit(t, i, G.GapText(g), rest);
    A.StartsBound(t, i + |G.GapText(g)|, rest);
    MinGap(t, i, g);
  }

  lemma Joined(t: Text, i: nat, j: nat, k: nat, a: Text, b: Text)
    requires i <= |t| && j <= |t| && k <= |t| && Min(t, i) == Prepend(a, Min(t, j))
      && Min(t, j) == Prepend(b, Min(t, k))
    ensures Min(t, i) == Prepend(a + b, Min(t, k))
  {
    hide *;
    PrependTwice(a, b, Min(t, k));
  }

  /** Whatever stands before and behind a value is dropped. */
  lemma {:induction false} MinValue(t: Text, i: nat, before: G.Gap, v: G.Doc, after: G.Gap, tail: Text, out: Text)
    requires G.GapOk(before) && G.DocOk(v) && G.GapOk(after)
    requires Starts(t, i, G.GapText(before) + (G.DocText(v) + (G.GapText(after) + tail)))
    requires var last := i + |G.GapText(before)| + |G.DocText(v)| + |G.GapText(after)|;
             last + |tail| <= |t| ==> Min(t, last) == Prepend(out, Min(t, last + |tail|))
    ensures G.DocOk(Compact(v))
    ensures var end := i + |G.GapText(before)| + |G.DocText(v)| + |G.GapText(after)| + |tail|;
            end <= |t| && Min(t, i) == Prepend(G.DocText(Compact(v)) + out, Min(t, end))
    decreases v, 2
  {
    hide *;
    CompactOk(v);
    var a, s, b := G.GapText(before), G.DocText(v), G.GapText(after);
    StartsSplit(t, i, a, s + (b + tail));
    var j := i + |a|;
    StartsSplit(t, j, s, b + tail);
    MinBehind(t, j + |s|, after, tail, out);
    MinDoc(t, j, v);
    Joined(t, j, j + |s|, j + |s| + |b| + |tail|, G.DocText(Compact(v)), out);
    MinBehind(t, i, before, s + (b + tail), G.DocText(Compact(v)) + out);
  }

  lemma CompactText(d: G.Doc)
    requires G.DocOk(d)
    ensures G.DocOk(Compact(d))
    ensures d.ArrayDoc? ==>
              && G.EntriesOk(d.items) && G.EntriesOk(CompactEntries(d.items))
              && G.DocText(d) == "[" + G.EntriesText(d.items)
              && G.DocText(Compact(d)) == "[" + G.EntriesText(CompactEntries(d.items))
    ensures d.ObjectDoc? ==>
              && G.PairsOk(d.members) && G.PairsOk(CompactPairs(d.members))
              && G.DocText(d) == "{" + G.PairsText(d.members)
              && G.DocText(Compact(d)) == "{" + G.PairsText(CompactPairs(d.members))
    ensures d.NullDoc? ==> G.DocText(d) == "null"
    ensures d.FalseDoc? ==> G.DocText(d) == "false"
    ensures d.TrueDoc? ==> G.DocText(d) == "true"
    ensures d.NumberDoc? ==> G.NumeralOk(d.n) && G.DocText(d) == G.NumeralText(d.n)
    ensures d.StringDoc? ==> G.PiecesOk(d.ps) && G.DocText(d) == G.Quoted(d.ps)
    ensures !d.ArrayDoc? && !d.ObjectDoc? ==> Compact(d) == d
  {
    CompactOk(d);
    hide G.EntriesText, G.PairsText, G.NumeralText, G.Quoted, CompactEntries, CompactPairs, G.NumeralOk, G.PiecesOk,
      G.EntriesOk, G.PairsOk;
  }

  /** Minifying a text of the grammar, wherever it stands, leaves the same document without white space and
      comments, and goes on behind it. */
  lemma {:induction false} MinDoc(t: Text, i: nat, d: G.Doc)
    requires G.DocOk(d) && Starts(t, i, G.DocText(d))
    ensures G.DocOk(Compact(d))
    ensures i + |G.DocText(d)| <= |t| && Min(t, i) == Prepend(G.DocText(Compact(d)), Min(t, i + |G.DocText(d)|))
    decreases d, 1
  {
    hide *;
    CompactText(d);
    Marks();
    match d
    case NullDoc => MinPlain(t, i, "null");
    case FalseDoc => MinPlain(t, i, "false");
    case TrueDoc => MinPlain(t, i, "true");
    case NumberDoc(n) =>
      NumeralPlain(n);
      MinPlain(t, i, G.NumeralText(n));
    case StringDoc(ps) => MinQuoted(t, i, ps);
    case ArrayDoc(items) =>
      StartsSplit(t, i, "[", G.EntriesText(items));
      MinEntries(t, i + 1, items);
      MinMark(t, i, "[", G.EntriesText(items), G.EntriesText(CompactEntries(items)));
    case ObjectDoc(members) =>
      StartsSplit(t, i, "{", G.PairsText(members));
      MinPairs(t, i + 1, members);
      MinMark(t, i, "{", G.PairsText(members), G.PairsText(CompactPairs(members)));
  }

  lemma CompactEntriesText(es: G.Entries)
    requires G.EntriesOk(es)
    ensures G.EntriesOk(CompactEntries(es))
    ensures es.NoEntries? ==>
              && G.GapOk(es.gap) && G.EntriesText(es) == G.GapText(es.gap) + "]"
              && G.EntriesText(CompactEntries(es)) == "]"
    ensures es.Entry? ==>
              && G.GapOk(es.before) && G.DocOk(es.v) && G.GapOk(es.after) && G.DocOk(Compact(es.v))
              && (es.more.Some? ==> G.EntriesOk(es.more.value) && G.EntriesOk(CompactEntries(es.more.value)))
              && G.EntriesText(es) ==
                 G.GapText(es.before) + (G.DocText(es.v) + (G.GapText(es.after) + A.EntriesTail(es.more)))
              && G.EntriesText(CompactEntries(es)) == G.DocText(Compact(es.v)) + A.EntriesTail(CompactMore(es.more))
  {
    hide *;
    EntriesParts(es);
    CompactEntriesIs(es);
    NoGap();
    if es.Entry? {
      A.EntryShape(es.before, es.v, es.after, es.more);
      A.EntryShape([], Compact(es.v), [], CompactMore(es.more));
      var s, tail := G.DocText(Compact(es.v)), A.EntriesTail(CompactMore(es.more));
      assert [] + (s + ([] + tail)) == s + tail;
    } else {
      assert [] + "]" == "]";
    }
  }

  lemma EntriesParts(es: G.Entries)
    requires G.EntriesOk(es)
    ensures es.NoEntries? ==> G.GapOk(es.gap) && G.EntriesText(es) == G.GapText(es.gap) + "]"
    ensures es.NoEntries? ==> G.EntriesText(CompactEntries(es)) == G.GapText([]) + "]"
    ensures es.Entry? ==> G.GapOk(es.before) && G.DocOk(es.v) && G.GapOk(es.after)
    ensures es.Entry? && es.more.Some? ==> G.EntriesOk(es.more.value)
  {
  }

  lemma CompactEntriesIs(es: G.Entries)
    requires G.EntriesOk(es)
    ensures G.EntriesOk(CompactEntries(es))
    ensures es.Entry? ==>
              && CompactEntries(es) == G.Entry([], Compact(es.v), [], CompactMore(es.more)) && G.DocOk(Compact(es.v))
    ensures es.Entry? && es.more.Some? ==>
              && G.EntriesOk(CompactEntries(es.more.value))
              && CompactMore(es.more) == Some(CompactEntries(es.more.value))
    ensures es.Entry? && es.more.None? ==> CompactMore(es.more) == None
  {
    CompactEntriesOk(es);
    if es.Entry? {
      CompactOk(es.v);
      if es.more.Some? {
        CompactEntriesOk(es.more.value);
      }
    }
    hide G.DocOk, Compact;
  }

  function CompactMore(more: Option<G.Entries>): Option<G.Entries> {
    if more.None? then None else Some(CompactEntries(more.value))
  }

  function CompactMorePairs(more: Option<G.Pairs>): Option<G.Pairs> {
    if more.None? then None else Some(CompactPairs(more.value))
  }

  lemma {:induction false} MinEntries(t: Text, i: nat, es: G.Entries)
    requires G.EntriesOk(es) && Starts(t, i, G.EntriesText(es))
    ensures G.EntriesOk(CompactEntries(es))
    ensures var end := i + |G.EntriesText(es)|;
            end <= |t| && Min(t, i) == Prepend(G.EntriesText(CompactEntries(es)), Min(t, end))
    decreases es, 2
  {
    hide *;
    CompactEntriesText(es);
    Marks();
    if es.NoEntries? {
      StartsSplit(t, i, G.GapText(es.gap), "]");
      MinPlain(t, i + |G.GapText(es.gap)|, "]");
      MinBehind(t, i, es.gap, "]", "]");
    } else {
      var last := i + |G.GapText(es.before)| + |G.DocText(es.v)| + |G.GapText(es.after)|;
      ThreeSplit(t, i, G.GapText(es.before), G.DocText(es.v), G.GapText(es.after), A.EntriesTail(es.more));
      TailText(es.more);
      MinEntriesTail(t, last, es.more);
      MinValue(t, i, es.before, es.v, es.after, A.EntriesTail(es.more), A.EntriesTail(CompactMore(es.more)));
    }
  }

  lemma ThreeSplit(t: Text, i: nat, a: Text, b: Text, c: Text, d: Text)
    requires Starts(t, i, a + (b + (c + d)))
    ensures Starts(t, i + |a| + |b| + |c|, d)
  {
    hide *;
    StartsSplit(t, i, a, b + (c + d));
    StartsSplit(t, i + |a|, b, c + d);
    StartsSplit(t, i + |a| + |b|, c, d);
  }

  lemma TailText(more: Option<G.Entries>)
    requires more.Some? ==> G.EntriesOk(more.value)
    ensures A.EntriesTail(more) == if more.None? then "]" else "," + G.EntriesText(more.value)
    ensures more.Some? ==> CompactMore(more) == Some(CompactEntries(more.value)) && G.EntriesOk(CompactMore(more).value)
    ensures A.EntriesTail(CompactMore(more)) ==
            if more.None? then "]" else "," + G.EntriesText(CompactEntries(more.value))
  {
    if more.Some? {
      CompactEntriesOk(more.value);
    }
  }

  lemma {:induction false} MinEntriesTail(t: Text, i: nat, more: Option<G.Entries>)
    requires more.Some? ==> G.EntriesOk(more.value) && G.EntriesOk(CompactEntries(more.value))
    requires Starts(t, i, A.EntriesTail(more))
    ensures var end := i + |A.EntriesTail(more)|;
            && end <= |t| && (more.Some? ==> G.EntriesOk(CompactMore(more).value))
            && Min(t, i) == Prepend(A.EntriesTail(CompactMore(more)), Min(t, end))
    decreases more, 3
  {
    hide *;
    Marks();
    TailText(more);
    if more.None? {
      MinPlain(t, i, "]");
    } else {
      StartsSplit(t, i, ",", G.EntriesText(more.value));
      MinEntries(t, i + 1, more.value);
      MinMark(t, i, ",", G.EntriesText(more.value), G.EntriesText(CompactEntries(more.value)));
    }
  }

  lemma CompactPairsText(ps: G.Pairs)
    requires G.PairsOk(ps)
    ensures G.PairsOk(CompactPairs(ps))
    ensures ps.NoPairs? ==>
              && G.GapOk(ps.gap) && G.PairsText(ps) == G.GapText(ps.gap) + "}"
              && G.PairsText(CompactPairs(ps)) == "}"
    ensures ps.Named? ==>
              && G.GapOk(ps.before) && G.PiecesOk(ps.name) && G.GapOk(ps.behind) && G.GapOk(ps.ahead)
              && G.DocOk(ps.v) && G.GapOk(ps.after) && G.DocOk(Compact(ps.v))
              && (ps.more.Some? ==> G.PairsOk(ps.more.value) && G.PairsOk(CompactPairs(ps.more.value)))
              && G.PairsText(ps) == G.GapText(ps.before) + (G.Quoted(ps.name) + (G.GapText(ps.behind) + (":"
                   + (G.GapText(ps.ahead) + (G.DocText(ps.v) + (G.GapText(ps.after) + A.PairsTail(ps.more)))))))
              && G.PairsText(CompactPairs(ps)) ==
                 G.Quoted(ps.name) + (":" + (G.DocText(Compact(ps.v)) + A.PairsTail(CompactMorePairs(ps.more))))
  {
    CompactPairsOk(ps);
    if ps.Named? {
      CompactOk(ps.v);
      if ps.more.Some? {
        CompactPairsOk(ps.more.value);
      }
      hide G.DocText, G.DocOk, Compact, G.Quoted, G.PiecesOk;
      var q, s, tail := G.Quoted(ps.name), G.DocText(Compact(ps.v)), A.PairsTail(CompactMorePairs(ps.more));
      NoGaps(q, s, tail);
    } else {
      assert G.GapText([]) + "}" == "}";
    }
  }

  lemma NoGaps(q: Text, s: Text, tail: Text)
    ensures G.GapText([]) + (q + (G.GapText([]) + (":" + (G.GapText([]) + (s + (G.GapText([]) + tail))))))
         == q + (":" + (s + tail))
  {
    assert [] + tail == tail;
    assert [] + (s + tail) == s + tail;
    assert [] + (":" + (s + tail)) == ":" + (s + tail);
  }

  lemma PairsTailText(more: Option<G.Pairs>)
    requires more.Some? ==> G.PairsOk(more.value)
    ensures A.PairsTail(more) == if more.None? then "}" else "," + G.PairsText(more.value)
    ensures more.Some? ==> CompactMorePairs(more) == Some(CompactPairs(more.value))
    ensures more.Some? ==> G.PairsOk(CompactMorePairs(more).value)
    ensures A.PairsTail(CompactMorePairs(more)) ==
            if more.None? then "}" else "," + G.PairsText(CompactPairs(more.value))
  {
    if more.Some? {
      CompactPairsOk(more.value);
    }
  }

  lemma {:induction false} MinPairs(t: Text, i: nat, ps: G.Pairs)
    requires G.PairsOk(ps) && Starts(t, i, G.PairsText(ps))
    ensures G.PairsOk(CompactPairs(ps))
    ensures var end := i + |G.PairsText(ps)|;
            end <= |t| && Min(t, i) == Prepend(G.PairsText(CompactPairs(ps)), Min(t, end))
    decreases ps, 2
  {
    hide *;
    CompactPairsText(ps);
    if ps.NoPairs? {
      Marks();
      StartsSplit(t, i, G.GapText(ps.gap), "}");
      MinPlain(t, i + |G.GapText(ps.gap)|, "}");
      MinBehind(t, i, ps.gap, "}", "}");
    } else {
      var value := G.GapText(ps.ahead) + (G.DocText(ps.v) + (G.GapText(ps.after) + A.PairsTail(ps.more)));
      var k := MinName(t, i, ps.before, ps.name, ps.behind, value);
      ThreeSplit(t, k, G.GapText(ps.ahead), G.DocText(ps.v), G.GapText(ps.after), A.PairsTail(ps.more));
      var last := k + |G.GapText(ps.ahead)| + |G.DocText(ps.v)| + |G.GapText(ps.after)|;
      PairsTailText(ps.more);
      MinPairsTail(t, last, ps.more);
      MinValue(t, k, ps.ahead, ps.v, ps.after, A.PairsTail(ps.more), A.PairsTail(CompactMorePairs(ps.more)));
      NamedLength(ps);
      var out := G.DocText(Compact(ps.v)) + A.PairsTail(CompactMorePairs(ps.more));
      Joined(t, i, k, last + |A.PairsTail(ps.more)|, G.Quoted(ps.name) + ":", out);
      assert G.Quoted(ps.name) + ":" + out == G.Quoted(ps.name) + (":" + out);
    }
  }

  lemma NamedLength(ps: G.Pairs)
    requires G.PairsOk(ps) && ps.Named?
    ensures |G.PairsText(ps)| ==
            |G.GapText(ps.before)| + |G.Quoted(ps.name)| + |G.GapText(ps.behind)| + 1 + |G.GapText(ps.ahead)|
            + |G.DocText(ps.v)| + |G.GapText(ps.after)| + |A.PairsTail(ps.more)|
  {
    hide *;
    A.NamedShape(ps);
  }

  /** A member's name and its colon. */
  lemma MinName(t: Text, i: nat, before: G.Gap, name: seq<G.Piece>, behind: G.Gap, rest: Text) returns (k: nat)
    requires G.GapOk(before) && G.PiecesOk(name) && G.GapOk(behind)
    requires Starts(t, i, G.GapText(before) + (G.Quoted(name) + (G.GapText(behind) + (":" + rest))))
    ensures k == i + |G.GapText(before)| + |G.Quoted(name)| + |G.GapText(behind)| + 1 <= |t| && Starts(t, k, rest)
    ensures Min(t, i) == Prepend(G.Quoted(name) + ":", Min(t, k))
  {
    hide *;
    var j := i + |G.GapText(before)|;
    StartsSplit(t, i, G.GapText(before), G.Quoted(name) + (G.GapText(behind) + (":" + rest)));
    MinGap(t, i, before);
    StartsSplit(t, j, G.Quoted(name), G.GapText(behind) + (":" + rest));
    MinQuoted(t, j, name);
    k := MinColon(t, j + |G.Quoted(name)|, behind, rest);
    Joined(t, j, j + |G.Quoted(name)|, k, G.Quoted(name), ":");
  }

  lemma MinColon(t: Text, i: nat, behind: G.Gap, rest: Text) returns (k: nat)
    requires G.GapOk(behind) && Starts(t, i, G.GapText(behind) + (":" + rest))
    ensures k == i + |G.GapText(behind)| + 1 <= |t| && Starts(t, k, rest) && Min(t, i) == Prepend(":", Min(t, k))
  {
    hide *;
    Marks();
    StartsSplit(t, i, G.GapText(behind), ":" + rest);
    StartsSplit(t, i + |G.GapText(behind)|, ":", rest);
    k := i + |G.GapText(behind)| + 1;
    A.StartsBound(t, k, rest);
    MinGap(t, i, behind);
    MinPlain(t, i + |G.GapText(behind)|, ":");
  }

  lemma {:induction false} MinPairsTail(t: Text, i: nat, more: Option<G.Pairs>)
    requires more.Some? ==> G.PairsOk(more.value) && G.PairsOk(CompactPairs(more.value))
    requires Starts(t, i, A.PairsTail(more))
    ensures var end := i + |A.PairsTail(more)|;
            && end <= |t| && (more.Some? ==> G.PairsOk(CompactMorePairs(more).value))
            && Min(t, i) == Prepend(A.PairsTail(CompactMorePairs(more)), Min(t, end))
    decreases more, 3
  {
    hide *;
    Marks();
    PairsTailText(more);
    if more.None? {
      MinPlain(t, i, "}");
    } else {
      StartsSplit(t, i, ",", G.PairsText(more.value));
      MinPairs(t, i + 1, more.value);
      MinMark(t, i, ",", G.PairsText(more.value), G.PairsText(CompactPairs(more.value)));
    }
  }

  /** A whole text with white space and comments anywhere leaves the compact text of the same document. */
  lemma MinifyText(before: G.Gap, d: G.Doc, after: G.Gap)
    requires G.GapOk(before) && G.DocOk(d) && G.GapOk(after)
    ensures G.DocOk(Compact(d))
    ensures Min(G.GapText(before) + (G.DocText(d) + G.GapText(after)), 0) == Some(G.DocText(Compact(d)))
  {
    hide *;
    CompactOk(d);
    var a, s, b := G.GapText(before), G.DocText(d), G.GapText(after);
    var t := a + (s + b);
    A.WholeStarts(t);
    StartsSplit(t, 0, a, s + b);
    StartsSplit(t, |a|, s, b);
    MinGap(t, 0, before);
    MinDoc(t, |a|, d);
    MinGap(t, |a| + |s|, after);
    NothingLeft(t, G.DocText(Compact(d)));
  }

  lemma NothingLeft(t: Text, s: Text)
    ensures Prepend(s, Min(t, |t|)) == Some(s)
  {
    assert s + [] == s;
  }

  /** Minifying keeps the meaning: the text that is left parses to what the text with its comments stands for. */
  lemma MinifyKeepsMeaning(before: G.Gap, d: G.Doc, after: G.Gap)
    requires G.GapOk(before) && G.DocOk(d) && G.GapOk(after)
    ensures Min(G.GapText(before) + (G.DocText(d) + G.GapText(after)), 0).Some?
    ensures var m := Min(G.GapText(before) + (G.DocText(d) + G.GapText(after)), 0).value;
            ParseText(m, true) == Parsed(G.Meaning(d), |m|)
  {
    hide *;
    CompactOk(d);
    MinifyText(before, d, after);
    var s := G.DocText(Compact(d));
    NoGap();
    A.TextReads([], Compact(d), []);
    assert [] + (s + []) == s;
  }

  lemma NoGap()
    ensures G.GapOk([]) && G.Bare([]) && G.GapText([]) == []
  {
  }

  // ---- prints ----

  /** The compact form of a print is its unformatted print, at any depth. */
  lemma {:induction false} CompactPrint(v: Value, depth: nat, fmt: bool, e: nat)
    requires Printable(v)
    ensures Compact(P.DocOf(v, depth, fmt)) == P.DocOf(v, e, false)
    decreases v
  {
    hide CompactEntries, CompactPairs, P.EntriesOf, P.PairsOf, P.PiecesOf, P.NumeralOf;
    match v
    case Array(items) =>
      EmptyCompact([]);
      if items.Item? {
        CompactItems(items, depth, fmt, "", e);
      }
    case Object(members) =>
      EmptyCompact(P.GapOf(Only(fmt, "\n" + Tabs(if depth == 0 then 0 else depth - 1))));
      NoLayout();
      if members.Member? {
        CompactMembers(members, depth + 1, fmt, e + 1);
      }
    case _ =>
  }

  lemma EmptyCompact(g: G.Gap)
    ensures CompactEntries(G.NoEntries(g)) == G.NoEntries([]) && CompactPairs(G.NoPairs(g)) == G.NoPairs([])
  {
  }

  lemma NoLayout()
    ensures P.GapOf([]) == [] && forall s: Text :: Only(false, s) == []
  {
  }

  lemma {:induction false} CompactItems(items: Items, depth: nat, fmt: bool, gap: Text, e: nat)
    requires PrintableItems(items) && items.Item?
    ensures CompactEntries(P.EntriesOf(items, depth, fmt, gap)) == P.EntriesOf(items, e, false, "")
    decreases items
  {
    hide Compact, P.DocOf, P.GapOf, Only;
    NoLayout();
    CompactPrint(items.value, depth + 1, fmt, e + 1);
    if items.rest.Item? {
      CompactItems(items.rest, depth, fmt, Only(fmt, " "), e);
    }
  }

  lemma {:induction false} CompactMembers(members: Members, depth: nat, fmt: bool, e: nat)
    requires PrintableMembers(members) && members.Member? && depth > 0 && e > 0
    ensures CompactPairs(P.PairsOf(members, depth, fmt)) == P.PairsOf(members, e, false)
    decreases members
  {
    hide Compact, P.DocOf, P.GapOf, Only, P.PiecesOf;
    NoLayout();
    CompactPrint(members.value, depth, fmt, e);
    if members.rest.Member? {
      CompactMembers(members.rest, depth, fmt, e);
    }
  }

  /** Minifying a printed value, wherever it stands and in whatever mode it was printed, leaves its
      unformatted print (which does not depend on the depth e), and goes on behind it. */
  lemma MinPrinted(v: Value, depth: nat, fmt: bool, e: nat, t: Text, i: nat)
    requires Printable(v) && Starts(t, i, Print(v, depth, fmt))
    ensures i + |Print(v, depth, fmt)| <= |t|
    ensures Min(t, i) == Prepend(Print(v, e, false), Min(t, i + |Print(v, depth, fmt)|))
  {
    hide *;
    P.Shown(v, depth, fmt);
    P.Shown(v, e, false);
    CompactPrint(v, depth, fmt, e);
    MinDoc(t, i, P.DocOf(v, depth, fmt));
  }

  /** Minifying any print of a tree gives its unformatted print, byte for byte. */
  lemma MinifyPrint(v: Value, depth: nat, fmt: bool)
    requires Printable(v)
    ensures Min(Print(v, depth, fmt), 0) == Some(Print(v, 0, false))
  {
    hide *;
    var t := Print(v, depth, fmt);
    A.WholeStarts(t);
    MinPrinted(v, depth, fmt, 0, t, 0);
    NothingLeft(t, Print(v, 0, false));
  }
}
