/** Facts about single steps of the parser, whatever the text around them is. */
module JsonScan {
  import opened Json
  import opened JsonParse

  lemma StartsSplit(t: Text, i: nat, a: Text, b: Text)
    requires Starts(t, i, a + b)
    ensures Starts(t, i, a) && Starts(t, i + |a|, b)
  {
    assert t[i..i + |a|] == t[i..i + |a + b|][..|a|];
    assert t[i + |a|..i + |a| + |b|] == t[i..i + |a + b|][|a|..];
  }

  lemma StartsAt(t: Text, i: nat, s: Text, k: nat)
    requires Starts(t, i, s) && k < |s|
    ensures At(t, i + k) == s[k]
  {
    assert t[i..i + |s|][k] == t[i + k];
  }

  // ---- white space ----

  predicate Blank(s: Text) {
    forall k | 0 <= k < |s| :: s[k] != '\0' && s[k] <= ' '
  }

  lemma {:induction false} SkipOver(t: Text, i: nat, s: Text)
    requires Starts(t, i, s) && Blank(s)
    ensures Skip(t, i) == Skip(t, i + |s|)
    decreases |s|
  {
    if s != [] {
      StartsAt(t, i, s, 0);
      assert s == [s[0]] + s[1..];
      StartsSplit(t, i, [s[0]], s[1..]);
      SkipOver(t, i + 1, s[1..]);
    }
  }

  lemma {:induction false} SkipTwice(t: Text, i: nat)
    requires i <= |t|
    ensures Skip(t, Skip(t, i)) == Skip(t, i)
    decreases |t| - i
  {
    if At(t, i) != '\0' && At(t, i) <= ' ' {
      SkipTwice(t, i + 1);
    }
  }

  lemma SkipStays(t: Text, i: nat)
    requires i < |t| && t[i] > ' '
    ensures Skip(t, i) == i
  {
  }

  /** What follows cannot extend a number. */
  predicate EndsNumber(t: Text, i: nat) {
    && !IsDigit(At(t, i)) && At(t, i) != 'e' && At(t, i) != 'E'
    && !(At(t, i) == '.' && IsDigit(At(t, i + 1)))
  }

  lemma NoKeyword(t: Text, i: nat)
    ensures At(t, i) != 'n' ==> !Starts(t, i, "null")
    ensures At(t, i) != 'f' ==> !Starts(t, i, "false")
    ensures At(t, i) != 't' ==> !Starts(t, i, "true")
  {
    if Starts(t, i, "null") { StartsAt(t, i, "null", 0); }
    if Starts(t, i, "false") { StartsAt(t, i, "false", 0); }
    if Starts(t, i, "true") { StartsAt(t, i, "true", 0); }
  }

  /** One unit, then the rest. */
  lemma UnitThen(t: Text, i: nat, unit: Text, j: nat, rest: Text, end: nat)
    requires i < |t| && j <= |t| && t[i] != '\"' && t[i] != '\0'
    requires Unit(t, i) == Parsed(unit, j) && Body(t, j) == Parsed(rest, end)
    ensures Body(t, i) == Parsed(unit + rest, end)
  {
    hide Unit;
  }

  lemma QuotedToken(t: Text, i: nat, s: Text, end: nat)
    requires i < |t| && t[i] == '\"' && Body(t, i + 1) == Parsed(s, end) && end < |t| && t[end] == '\"'
    ensures ParseString(t, i) == Parsed(s, end + 1)
  {
    hide Body;
  }
}
