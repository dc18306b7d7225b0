/** A canonical expression for every path the tokenizer can produce, and the
    proof that tokenizing it gives the path back. Together with the
    well-formedness guaranteed by `Tokenizer.Tokenize`, this pins down
    exactly which step sequences are the results of a successful scan. */
module TokenizerRender {
  import opened Results
  import opened Numerals
  import opened Tokenizer

  /** Write every `.` of a key as the escape `\.`. */
  function EscapeKey(key: string): string {
    if |key| == 0 then ""
    else (if key[0] == '.' then "\\." else [key[0]]) + EscapeKey(key[1..])
  }

  function StepText(t: Token): string {
    match t
    case Object(key) => EscapeKey(key)
    case List(i) => "[" + IntText(i) + "]"
  }

  /** Steps joined with a `.` before every OBJECT step that follows another
      step; a LIST step needs no separator. */
  function Join(steps: seq<Token>, lead: bool): string
    decreases |steps|
  {
    if |steps| == 0 then ""
    else (if lead && steps[0].Object? then "." else "") + StepText(steps[0]) + Join(steps[1..], true)
  }

  function Render(steps: seq<Token>): string {
    Join(steps, false)
  }

  /** What may follow a step's text: nothing, a separator or a list group. */
  predicate Boundary(t: string) {
    |t| == 0 || t[0] == '.' || t[0] == '['
  }

  /** What may follow a NAME match without extending it: a boundary, or any
      character that is neither a letter nor a backslash. */
  predicate Stop(t: string, isLetter: char -> bool) {
    Boundary(t) || (!isLetter(t[0]) && t[0] != '\\')
  }

  lemma JoinBoundary(steps: seq<Token>)
    ensures Boundary(Join(steps, true))
  {
  }

  lemma {:induction false} EscapeKeyPlain(w: string, isLetter: char -> bool)
    requires Admissible(isLetter) && AllLetters(w, isLetter)
    ensures EscapeKey(w) == w
  {
    if |w| > 0 {
      EscapeKeyPlain(w[1..], isLetter);
      assert w == [w[0]] + w[1..];
    }
  }

  lemma {:induction false} EscapeKeyConcat(x: string, y: string)
    ensures EscapeKey(x + y) == EscapeKey(x) + EscapeKey(y)
  {
    if |x| > 0 {
      assert (x + y)[1..] == x[1..] + y;
      EscapeKeyConcat(x[1..], y);
    } else {
      assert x + y == y;
    }
  }

  /** Unescaping undoes the escaping of every key without a backslash. */
  lemma {:induction false} UnescapeEscapeKey(key: string)
    requires forall j :: 0 <= j < |key| ==> key[j] != '\\'
    ensures Unescape(EscapeKey(key)) == key
    decreases |key|
  {
    if |key| > 0 {
      var c, more := key[0], key[1..];
      UnescapeEscapeKey(more);
      var head: string := if c == '.' then "\\." else [c];
      var w := head + EscapeKey(more);
      assert EscapeKey(key) == w;
      if c == '.' {
        assert w[2..] == EscapeKey(more);
      } else {
        assert w[1..] == EscapeKey(more);
      }
      assert key == [c] + more;
    }
  }

  /** A key written with its dot escaped is matched whole by the NAME rule and
      unescapes back to the key. */
  lemma NameOfKey(key: string, tail: string, isLetter: char -> bool)
    requires Admissible(isLetter) && IsKey(key, isLetter) && Stop(tail, isLetter)
    ensures GetToken(EscapeKey(key) + tail, isLetter)
            == Some(Match(Name(EscapeKey(key)), |EscapeKey(key)|))
    ensures Unescape(EscapeKey(key)) == key
  {
    var k := LetterRun(key, isLetter);
    if k == |key| {
      assert key[..k] == key;
      PlainName(key, tail, isLetter);
    } else {
      var a := key[..k];
      var b := key[k + 1..];
      assert key == a + "." + b;
      assert AllLetters(b, isLetter);
      DottedName(a, b, tail, isLetter);
    }
  }

  /** A plain key is written as itself and matched whole. */
  lemma PlainName(key: string, tail: string, isLetter: char -> bool)
    requires Admissible(isLetter) && |key| >= 2 && AllLetters(key, isLetter) && Stop(tail, isLetter)
    ensures EscapeKey(key) == key && Unescape(key) == key
    ensures GetToken(key + tail, isLetter) == Some(Match(Name(key), |key|))
  {
    EscapeKeyPlain(key, isLetter);
    PlainKey(key, isLetter);
    var s := key + tail;
    assert LetterRun(s, isLetter) == |key| by {
      assert s[..|key|] == key;
      LetterRunIs(s, |key|, isLetter);
    }
    assert s[0] == key[0];
    assert s[..|key|] == key;
  }

  /** A dotted key is written with its dot escaped and matched whole. */
  lemma DottedName(a: string, b: string, tail: string, isLetter: char -> bool)
    requires Admissible(isLetter) && Stop(tail, isLetter)
    requires |a| >= 1 && AllLetters(a, isLetter)
    requires |b| >= 1 && AllLetters(b, isLetter)
    ensures EscapeKey(a + "." + b) == a + "\\." + b
    ensures Unescape(a + "\\." + b) == a + "." + b
    ensures GetToken(a + "\\." + b + tail, isLetter) == Some(Match(Name(a + "\\." + b), |a| + 2 + |b|))
  {
    EscapeKeyConcat(a + ".", b);
    EscapeKeyConcat(a, ".");
    EscapeKeyPlain(a, isLetter);
    EscapeKeyPlain(b, isLetter);
    assert EscapeKey(".") == "\\.";
    UnescapeEscaped(a, b, isLetter);
    EscapedName(a, b, tail, isLetter);
  }

  lemma EscapedName(a: string, b: string, tail: string, isLetter: char -> bool)
    requires Admissible(isLetter) && Stop(tail, isLetter)
    requires |a| >= 1 && AllLetters(a, isLetter)
    requires |b| >= 1 && AllLetters(b, isLetter)
    ensures GetToken(a + "\\." + b + tail, isLetter)
            == Some(Match(Name(a + "\\." + b), |a| + 2 + |b|))
  {
    var s := a + "\\." + b + tail;
    EscapedMatch(a, b, tail, isLetter);
    assert s[0] == a[0];
    assert s[..|a| + 2 + |b|] == a + "\\." + b;
  }

  /** The NAME rule takes a letter run, an escaped separator and a letter run. */
  lemma EscapedMatch(a: string, b: string, tail: string, isLetter: char -> bool)
    requires Admissible(isLetter) && Stop(tail, isLetter)
    requires |a| >= 1 && AllLetters(a, isLetter)
    requires |b| >= 1 && AllLetters(b, isLetter)
    ensures MatchName(a + "\\." + b + tail, isLetter) == Some(|a| + 2 + |b|)
  {
    var s := a + "\\." + b + tail;
    assert LetterRun(s, isLetter) == |a| by {
      assert s[..|a|] == a;
      LetterRunIs(s, |a|, isLetter);
    }
    var rest := s[|a| + 2..];
    assert LetterRun(rest, isLetter) == |b| by {
      assert rest == b + tail;
      assert rest[..|b|] == b;
      LetterRunIs(rest, |b|, isLetter);
    }
  }

  /** The text of an integer is matched whole by the INTEGER rule. */
  lemma IntegerOfText(i: int, tail: string, isLetter: char -> bool)
    requires Boundary(tail) || (|tail| > 0 && tail[0] == ']')
    ensures GetToken(IntText(i) + tail, isLetter)
            == Some(Match(Integer(IntText(i)), |IntText(i)|))
  {
    if i < 0 {
      NegativeOfText(-i, tail, isLetter);
      assert IntText(i) == "-" + NatText(-i);
    } else {
      NaturalOfText(i, tail, isLetter);
    }
  }

  lemma NaturalOfText(n: nat, tail: string, isLetter: char -> bool)
    requires Boundary(tail) || (|tail| > 0 && tail[0] == ']')
    ensures GetToken(NatText(n) + tail, isLetter) == Some(Match(Integer(NatText(n)), |NatText(n)|))
  {
    var t := NatText(n);
    var s := t + tail;
    assert s[..|t|] == t;
    DigitRunIs(s, |t|);
    assert IsDigit(s[0]) by { assert s[0] == t[0]; }
  }

  lemma NegativeOfText(n: nat, tail: string, isLetter: char -> bool)
    requires n > 0
    requires Boundary(tail) || (|tail| > 0 && tail[0] == ']')
    ensures GetToken("-" + NatText(n) + tail, isLetter)
            == Some(Match(Integer("-" + NatText(n)), 1 + |NatText(n)|))
  {
    var d := NatText(n);
    var s := "-" + d + tail;
    assert DigitRun(s[1..]) == |d| by {
      assert s[1..] == d + tail;
      assert s[1..][..|d|] == d;
      DigitRunIs(s[1..], |d|);
    }
    assert IsDigit(s[1]) by { assert s[1] == d[0]; }
    assert s[..1 + |d|] == "-" + d;
  }

  /** A list group written as `[` INTEGER `]` is taken as one LIST step. */
  lemma ListOfIndex(i: int, tail: string, isLetter: char -> bool)
    ensures ListToken("[" + IntText(i) + "]" + tail, isLetter) == Some((i, |IntText(i)| + 2))
  {
    var t := IntText(i);
    var after := t + ("]" + tail);
    assert "[" + t + "]" + tail == "[" + after;
    GroupParts(i, after, tail, isLetter);
  }

  lemma GroupParts(i: int, after: string, tail: string, isLetter: char -> bool)
    requires after == IntText(i) + ("]" + tail)
    ensures ListToken("[" + after, isLetter) == Some((i, |IntText(i)| + 2))
  {
    var t := IntText(i);
    var s := "[" + after;
    assert s[1..] == after;
    assert GetToken(s, isLetter) == Some(Match(LList, 1));
    assert GetToken(after, isLetter) == Some(Match(Integer(t), |t|)) by {
      IntegerOfText(i, "]" + tail, isLetter);
    }
    assert GetToken(s[1 + |t|..], isLetter) == Some(Match(RList, 1)) by {
      assert s[1 + |t|..] == "]" + tail;
    }
    assert ParseInt(t) == Some(i);
  }

  /** A `[` that is not followed by an integer is a broken list group. */
  lemma GroupNeedsInteger(s: string, isLetter: char -> bool)
    requires Admissible(isLetter) && |s| >= 1 && s[0] == '['
    requires |s| == 1 || (!IsDigit(s[1]) && s[1] != '-')
    ensures Tokenize(s, isLetter).Error?
  {
    assert s[1..] == [] || s[1..][0] == s[1];
  }

  /** A `[` and an integer that no `]` closes is a broken list group. */
  lemma UnclosedGroup(i: int, tail: string, isLetter: char -> bool)
    requires Admissible(isLetter) && Boundary(tail)
    ensures Tokenize("[" + IntText(i) + tail, isLetter).Error?
  {
    var t := IntText(i);
    var s := "[" + t + tail;
    assert GetToken(s, isLetter) == Some(Match(LList, 1));
    assert GetToken(s[1..], isLetter) == Some(Match(Integer(t), |t|)) by {
      assert s[1..] == t + tail;
      IntegerOfText(i, tail, isLetter);
    }
    assert ListToken(s, isLetter).None? by {
      assert s[1 + |t|..] == tail;
    }
  }

  /** Tokenizing the canonical text of a well-formed path gives the path back. */
  lemma {:induction false} TokenizeJoin(steps: seq<Token>, lead: bool, isLetter: char -> bool)
    requires Admissible(isLetter) && WellFormed(steps, isLetter)
    ensures Tokenize(Join(steps, lead), isLetter) == Ok(steps)
    decreases |steps|
  {
    if |steps| > 0 {
      var t, rest := steps[0], steps[1..];
      var body := StepText(t) + Join(rest, true);
      WellFormedTail(steps, isLetter);
      assert Tokenize(body, isLetter) == Ok(steps) by {
        TokenizeJoin(rest, true, isLetter);
        JoinBoundary(rest);
        TokenizeStep(t, Join(rest, true), rest, isLetter);
        assert [t] + rest == steps;
      }
      JoinUnfold(steps, lead);
      if lead && t.Object? {
        TokenizeSeparator(body, isLetter);
      }
    }
  }

  /** A scan that fails after the canonical text of a well-formed path fails
      as a whole, when the failing text cannot extend the last name: the
      failure rules hold at every step start, not only at the first
      character. */
  lemma {:induction false} JoinThenError(steps: seq<Token>, lead: bool, tail: string, isLetter: char -> bool)
    requires Admissible(isLetter) && WellFormed(steps, isLetter) && Stop(tail, isLetter)
    requires Tokenize(tail, isLetter).Error?
    ensures Tokenize(Join(steps, lead) + tail, isLetter).Error?
    decreases |steps|
  {
    if |steps| == 0 {
      assert Join(steps, lead) + tail == tail;
    } else {
      var t, rest := steps[0], steps[1..];
      var x, j := StepText(t), Join(rest, true);
      var body := x + (j + tail);
      var sep: string := if lead && t.Object? then "." else "";
      assert Join(steps, lead) + tail == sep + body by {
        JoinUnfold(steps, lead);
        assert Join(steps, lead) == sep + (x + j);
        ConcatRight(sep, x, j, tail);
      }
      WellFormedTail(steps, isLetter);
      JoinThenError(rest, true, tail, isLetter);
      StepThenError(t, rest, tail, isLetter);
      if lead && t.Object? {
        TokenizeSeparator(body, isLetter);
      } else {
        assert sep + body == body;
      }
    }
  }

  /** Four-way concatenation regrouped to the right, stated apart so that
      `JoinThenError` does not derive it among its other facts. */
  lemma ConcatRight(a: string, b: string, c: string, d: string)
    ensures (a + (b + c)) + d == a + (b + (c + d))
  {
  }

  /** One step of `JoinThenError`. */
  lemma StepThenError(t: Token, rest: seq<Token>, tail: string, isLetter: char -> bool)
    requires Admissible(isLetter) && Stop(tail, isLetter) && (t.Object? ==> IsKey(t.key, isLetter))
    requires Tokenize(Join(rest, true) + tail, isLetter).Error?
    ensures Tokenize(StepText(t) + (Join(rest, true) + tail), isLetter).Error?
  {
    var after := Join(rest, true) + tail;
    JoinBoundary(rest);
    assert Stop(after, isLetter) by {
      if |Join(rest, true)| == 0 {
        assert after == tail;
      } else {
        assert after[0] == Join(rest, true)[0];
      }
    }
    TokenizeStepError(t, after, isLetter);
  }

  /** `Join` unfolded by one step, kept right-nested so that later steps can
      be added in front. */
  lemma JoinUnfold(steps: seq<Token>, lead: bool)
    requires |steps| > 0
    ensures Join(steps, lead)
            == (if lead && steps[0].Object? then "." + (StepText(steps[0]) + Join(steps[1..], true))
                else StepText(steps[0]) + Join(steps[1..], true))
  {
    if lead && steps[0].Object? {
      assert "." + StepText(steps[0]) + Join(steps[1..], true)
             == "." + (StepText(steps[0]) + Join(steps[1..], true));
    } else {
      assert "" + StepText(steps[0]) == StepText(steps[0]);
    }
  }

  lemma WellFormedTail(steps: seq<Token>, isLetter: char -> bool)
    requires |steps| > 0 && WellFormed(steps, isLetter)
    ensures WellFormed(steps[1..], isLetter)
    ensures steps[0].Object? ==> IsKey(steps[0].key, isLetter)
  {
    forall j | 0 <= j < |steps| - 1 && steps[1..][j].Object?
      ensures IsKey(steps[1..][j].key, isLetter)
    {
      assert steps[1..][j] == steps[j + 1];
    }
  }

  /** A separator emits nothing. */
  lemma TokenizeSeparator(body: string, isLetter: char -> bool)
    requires Admissible(isLetter)
    ensures Tokenize("." + body, isLetter) == Tokenize(body, isLetter)
  {
    assert ("." + body)[1..] == body;
  }

  /** One step's text in front of text that tokenizes to `rest`. */
  lemma TokenizeStep(t: Token, tail: string, rest: seq<Token>, isLetter: char -> bool)
    requires Admissible(isLetter) && Stop(tail, isLetter)
    requires t.Object? ==> IsKey(t.key, isLetter)
    requires Tokenize(tail, isLetter) == Ok(rest)
    ensures Tokenize(StepText(t) + tail, isLetter) == Ok([t] + rest)
  {
    match t
    case Object(key) => TokenizeName(key, tail, rest, isLetter);
    case List(i) => TokenizeGroup(i, tail, rest, isLetter);
  }

  /** One step's text in front of text whose scan fails: the scan of the
      whole fails too. */
  lemma TokenizeStepError(t: Token, tail: string, isLetter: char -> bool)
    requires Admissible(isLetter) && Stop(tail, isLetter)
    requires t.Object? ==> IsKey(t.key, isLetter)
    requires Tokenize(tail, isLetter).Error?
    ensures Tokenize(StepText(t) + tail, isLetter).Error?
  {
    match t
    case Object(key) =>
      var w := EscapeKey(key);
      NameOfKey(key, tail, isLetter);
      assert (w + tail)[|w|..] == tail;
    case List(i) =>
      var s := "[" + IntText(i) + "]" + tail;
      assert GetToken(s, isLetter) == Some(Match(LList, 1));
      ListOfIndex(i, tail, isLetter);
      assert s[|IntText(i)| + 2..] == tail;
  }

  lemma TokenizeName(key: string, tail: string, rest: seq<Token>, isLetter: char -> bool)
    requires Admissible(isLetter) && Stop(tail, isLetter) && IsKey(key, isLetter)
    requires Tokenize(tail, isLetter) == Ok(rest)
    ensures Tokenize(EscapeKey(key) + tail, isLetter) == Ok([Object(key)] + rest)
  {
    var w := EscapeKey(key);
    var s := w + tail;
    NameOfKey(key, tail, isLetter);
    assert s[|w|..] == tail;
  }

  lemma TokenizeGroup(i: int, tail: string, rest: seq<Token>, isLetter: char -> bool)
    requires Admissible(isLetter)
    requires Tokenize(tail, isLetter) == Ok(rest)
    ensures Tokenize("[" + IntText(i) + "]" + tail, isLetter) == Ok([List(i)] + rest)
  {
    var s := "[" + IntText(i) + "]" + tail;
    assert GetToken(s, isLetter) == Some(Match(LList, 1));
    ListOfIndex(i, tail, isLetter);
    assert s[|IntText(i)| + 2..] == tail;
  }

  /** The round trip: every well-formed path is the result of tokenizing its
      canonical text. */
  lemma TokenizeRender(steps: seq<Token>, isLetter: char -> bool)
    requires Admissible(isLetter) && WellFormed(steps, isLetter)
    ensures Tokenize(Render(steps), isLetter) == Ok(steps)
  {
    TokenizeJoin(steps, false, isLetter);
  }

  /** A plain name in front of text that starts a new step. */
  lemma NameInFront(a: string, tail: string, rest: seq<Token>, isLetter: char -> bool)
    requires Admissible(isLetter) && |a| >= 2 && AllLetters(a, isLetter) && Stop(tail, isLetter)
    requires Tokenize(tail, isLetter) == Ok(rest)
    ensures Tokenize(a + tail, isLetter) == Ok([Object(a)] + rest)
  {
    PlainKey(a, isLetter);
    EscapeKeyPlain(a, isLetter);
    TokenizeStep(Object(a), tail, rest, isLetter);
  }
}
