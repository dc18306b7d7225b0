/** The expectations of tests/test_tokenize.py, and the failure rules of
    jsonxs/tokenizer.py, stated over the model. The examples use a sample
    letter class (ASCII letters and `é`); the general lemmas hold for every
    admissible class. */
module TokenizerScenarios {
  import opened Results
  import opened Numerals
  import opened Tokenizer
  import opened TokenizerRender

  predicate SampleLetter(c: char) {
    ('a' <= c <= 'z') || ('A' <= c <= 'Z') || c == 'é'
  }

  lemma SampleAdmissible()
    ensures Admissible(SampleLetter)
  {
  }

  /** Three plain names joined by separators. */
  lemma ThreeNames(a: string, b: string, c: string, isLetter: char -> bool)
    requires Admissible(isLetter)
    requires |a| >= 2 && AllLetters(a, isLetter)
    requires |b| >= 2 && AllLetters(b, isLetter)
    requires |c| >= 2 && AllLetters(c, isLetter)
    ensures Tokenize(a + ("." + (b + ("." + c))), isLetter) == Ok([Object(a), Object(b), Object(c)])
  {
    var t1 := "." + (b + ("." + c));
    TwoDottedNames(b, c, isLetter);
    NameInFront(a, t1, [Object(b), Object(c)], isLetter);
    assert [Object(a)] + [Object(b), Object(c)] == [Object(a), Object(b), Object(c)];
  }

  /** Two names, each after a separator. */
  lemma TwoDottedNames(b: string, c: string, isLetter: char -> bool)
    requires Admissible(isLetter)
    requires |b| >= 2 && AllLetters(b, isLetter)
    requires |c| >= 2 && AllLetters(c, isLetter)
    ensures Tokenize("." + (b + ("." + c)), isLetter) == Ok([Object(b), Object(c)])
  {
    var t2 := "." + c;
    DottedNameAlone(c, isLetter);
    NameInFront(b, t2, [Object(c)], isLetter);
    TokenizeSeparator(b + t2, isLetter);
    assert [Object(b)] + [Object(c)] == [Object(b), Object(c)];
  }

  /** A name after a separator is one OBJECT step. */
  lemma DottedNameAlone(c: string, isLetter: char -> bool)
    requires Admissible(isLetter)
    requires |c| >= 2 && AllLetters(c, isLetter)
    ensures Tokenize("." + c, isLetter) == Ok([Object(c)])
  {
    NameAlone(c, isLetter);
    TokenizeSeparator(c, isLetter);
  }

  /** A plain name on its own is one OBJECT step. */
  lemma NameAlone(c: string, isLetter: char -> bool)
    requires Admissible(isLetter)
    requires |c| >= 2 && AllLetters(c, isLetter)
    ensures Tokenize(c, isLetter) == Ok([Object(c)])
  {
    var none: string := "";
    var e: seq<Token> := [];
    assert Tokenize(none, isLetter) == Ok(e);
    NameInFront(c, none, e, isLetter);
    assert c + none == c;
    assert [Object(c)] + e == [Object(c)];
  }

  /** `an.object.path` gives three keys in order. */
  lemma ObjectPath(s: string)
    requires s == "an.object.path"
    ensures Tokenize(s, SampleLetter) == Ok([Object("an"), Object("object"), Object("path")])
  {
    SampleAdmissible();
    var a, b, c := "an", "object", "path";
    assert s == a + ("." + (b + ("." + c)));
    ThreeNames(a, b, c, SampleLetter);
  }

  /** A non-ASCII letter is an ordinary name character. */
  lemma UnicodeObjectPath(s: string)
    requires s == "an.objéct.path"
    ensures Tokenize(s, SampleLetter) == Ok([Object("an"), Object("objéct"), Object("path")])
  {
    SampleAdmissible();
    var a, b, c := "an", "objéct", "path";
    assert s == a + ("." + (b + ("." + c)));
    ThreeNames(a, b, c, SampleLetter);
  }

  /** A dotted key is written with its one dot escaped. */
  lemma EscapeDotted(b: string, c: string, isLetter: char -> bool)
    requires Admissible(isLetter) && AllLetters(b, isLetter) && AllLetters(c, isLetter)
    ensures EscapeKey(b + ("." + c)) == b + ("\\." + c)
  {
    EscapeKeyPlain(b, isLetter);
    EscapeKeyPlain(c, isLetter);
    EscapeKeyConcat(b, "." + c);
    EscapeKeyConcat(".", c);
  }

  /** A dotted key is a key, written with its dot escaped. */
  lemma DottedKey(b: string, c: string, key: string, isLetter: char -> bool)
    requires Admissible(isLetter)
    requires |b| >= 1 && AllLetters(b, isLetter)
    requires |c| >= 1 && AllLetters(c, isLetter)
    requires key == b + ("." + c)
    ensures IsKey(key, isLetter) && EscapeKey(key) == b + ("\\." + c)
  {
    EscapedKey(b, c, isLetter);
    assert b + "." + c == key;
    EscapeDotted(b, c, isLetter);
  }

  /** Two keys, each written as the given text. */
  lemma RenderPair(a: string, key: string, text: string)
    requires EscapeKey(a) == a && EscapeKey(key) == text
    ensures Render([Object(a), Object(key)]) == a + ("." + text)
  {
    var p, p1 := [Object(a), Object(key)], [Object(key)];
    JoinUnfold(p1, true);
    assert p1[1..] == [];
    assert text + "" == text;
    JoinUnfold(p, false);
    assert p[1..] == p1;
  }

  /** A name followed by a name holding one escaped separator. */
  lemma NameThenDotted(a: string, b: string, c: string, key: string, isLetter: char -> bool)
    requires Admissible(isLetter)
    requires |a| >= 2 && AllLetters(a, isLetter)
    requires |b| >= 1 && AllLetters(b, isLetter)
    requires |c| >= 1 && AllLetters(c, isLetter)
    requires key == b + ("." + c)
    ensures Tokenize(a + ("." + (b + ("\\." + c))), isLetter) == Ok([Object(a), Object(key)])
  {
    EscapeKeyPlain(a, isLetter);
    PlainKey(a, isLetter);
    DottedKey(b, c, key, isLetter);
    RenderPair(a, key, b + ("\\." + c));
    TokenizeRender([Object(a), Object(key)], isLetter);
  }

  /** An escaped separator stays inside the key as a literal dot. */
  lemma EscapedSeparator(s: string)
    requires s == "an.object\\.path"
    ensures Tokenize(s, SampleLetter) == Ok([Object("an"), Object("object.path")])
  {
    SampleAdmissible();
    var a, b, c, key := "an", "object", "path", "object.path";
    assert s == a + ("." + (b + ("\\." + c)));
    assert key == b + ("." + c);
    NameThenDotted(a, b, c, key, SampleLetter);
  }

  /** Consecutive list groups need no separator. */
  lemma NestedArrays(s: string)
    requires s == "[0][1]"
    ensures Tokenize(s, SampleLetter) == Ok([List(0), List(1)])
  {
    SampleAdmissible();
    var g1 := "[" + IntText(1) + "]";
    assert Tokenize(g1, SampleLetter) == Ok([List(1)]) by {
      var e: string := "";
      var none: seq<Token> := [];
      TokenizeGroup(1, e, none, SampleLetter);
      assert g1 + e == g1;
      assert [List(1)] + none == [List(1)];
    }
    TokenizeGroup(0, g1, [List(1)], SampleLetter);
    assert [List(0)] + [List(1)] == [List(0), List(1)];
    GroupsSpelled();
  }

  /** The canonical texts of `[0]` and `[1]`, spelled out. */
  lemma GroupsSpelled()
    ensures "[" + IntText(0) + "]" + ("[" + IntText(1) + "]") == "[0][1]"
  {
    assert IntText(0) == "0" && IntText(1) == "1";
  }

  /** A negative index is read with its sign. */
  lemma NegativeArrays(s: string)
    requires s == "[-1]"
    ensures Tokenize(s, SampleLetter) == Ok([List(-1)])
  {
    SampleAdmissible();
    var e: string := "";
    var none: seq<Token> := [];
    TokenizeGroup(-1, e, none, SampleLetter);
    assert [List(-1)] + none == [List(-1)];
    assert s == "[" + IntText(-1) + "]" + e by {
      NegativeSpelled();
    }
  }

  /** The canonical text of `[-1]`, spelled out. */
  lemma NegativeSpelled()
    ensures "[" + IntText(-1) + "]" + "" == "[-1]"
  {
    assert IntText(-1) == "-1";
  }


  /** A name and a list group, twice. */
  lemma NamesAndGroups(a: string, i: int, b: string, j: int, isLetter: char -> bool)
    requires Admissible(isLetter)
    requires |a| >= 2 && AllLetters(a, isLetter)
    requires |b| >= 2 && AllLetters(b, isLetter)
    ensures Tokenize(a + (StepText(List(i)) + ("." + (b + StepText(List(j))))), isLetter)
            == Ok([Object(a), List(i), Object(b), List(j)])
  {
    var t1 := StepText(List(i)) + ("." + (b + StepText(List(j))));
    var rest := [List(i), Object(b), List(j)];
    assert [Object(a)] + rest == [Object(a), List(i), Object(b), List(j)];
    assert Tokenize(a + t1, isLetter) == Ok([Object(a)] + rest) by {
      GroupThenNamedGroup(i, b, j, isLetter);
      NameInFront(a, t1, rest, isLetter);
    }
  }

  /** A list group, then a separated name and list group. */
  lemma GroupThenNamedGroup(i: int, b: string, j: int, isLetter: char -> bool)
    requires Admissible(isLetter)
    requires |b| >= 2 && AllLetters(b, isLetter)
    ensures Tokenize(StepText(List(i)) + ("." + (b + StepText(List(j)))), isLetter)
            == Ok([List(i), Object(b), List(j)])
  {
    var t2 := "." + (b + StepText(List(j)));
    assert Tokenize(t2, isLetter) == Ok([Object(b), List(j)]) by {
      NameThenGroup(b, j, isLetter);
      TokenizeSeparator(b + StepText(List(j)), isLetter);
    }
    assert [List(i)] + [Object(b), List(j)] == [List(i), Object(b), List(j)];
    assert Tokenize(StepText(List(i)) + t2, isLetter) == Ok([List(i)] + [Object(b), List(j)]) by {
      TokenizeStep(List(i), t2, [Object(b), List(j)], isLetter);
    }
  }

  /** Two names and a list group. */
  lemma NamesThenGroup(a: string, b: string, i: int, isLetter: char -> bool)
    requires Admissible(isLetter)
    requires |a| >= 2 && AllLetters(a, isLetter)
    requires |b| >= 2 && AllLetters(b, isLetter)
    ensures Tokenize(a + ("." + (b + StepText(List(i)))), isLetter) == Ok([Object(a), Object(b), List(i)])
  {
    var li := StepText(List(i));
    var t1 := "." + (b + li);
    NameThenGroup(b, i, isLetter);
    assert Tokenize(t1, isLetter) == Ok([Object(b), List(i)]) by {
      TokenizeSeparator(b + li, isLetter);
    }
    NameInFront(a, t1, [Object(b), List(i)], isLetter);
    assert [Object(a)] + [Object(b), List(i)] == [Object(a), Object(b), List(i)];
  }

  /** A name directly followed by a list group. */
  lemma NameThenGroup(b: string, j: int, isLetter: char -> bool)
    requires Admissible(isLetter)
    requires |b| >= 2 && AllLetters(b, isLetter)
    ensures Tokenize(b + StepText(List(j)), isLetter) == Ok([Object(b), List(j)])
  {
    var lj := StepText(List(j));
    var e: seq<Token> := [];
    var none: string := "";
    assert Tokenize(lj, isLetter) == Ok([List(j)]) by {
      assert Tokenize(none, isLetter) == Ok(e);
      TokenizeStep(List(j), none, e, isLetter);
      assert lj + none == lj;
      assert [List(j)] + e == [List(j)];
    }
    NameInFront(b, lj, [List(j)], isLetter);
    assert [Object(b)] + [List(j)] == [Object(b), List(j)];
  }

  /** Names and list groups keep their left-to-right order. */
  lemma CombinedPaths(s: string)
    requires s == "start[1].next[2]"
    ensures Tokenize(s, SampleLetter) == Ok([Object("start"), List(1), Object("next"), List(2)])
  {
    SampleAdmissible();
    var a, b := "start", "next";
    var li, lj := StepText(List(1)), StepText(List(2));
    assert li == "[1]" && lj == "[2]";
    assert s == a + (li + ("." + (b + lj)));
    NamesAndGroups(a, 1, b, 2, SampleLetter);
  }

  /** A single letter that is neither followed by a letter nor by an escape
      is no NAME, so the scan fails there. */
  lemma SingleLetterFails(s: string, isLetter: char -> bool)
    requires Admissible(isLetter)
    requires |s| >= 1 && isLetter(s[0])
    requires |s| == 1 || (!isLetter(s[1]) && s[1] != '\\')
    ensures Tokenize(s, isLetter).Error?
  {
    LetterRunIs(s, 1, isLetter);
  }

  /** An INTEGER, `-` or `]` where a later step starts fails the scan, as it
      does at the first character. */
  lemma StepStartFails(steps: seq<Token>, body: string, isLetter: char -> bool)
    requires Admissible(isLetter) && WellFormed(steps, isLetter)
    requires |body| > 0 && (IsDigit(body[0]) || body[0] == ']' || body[0] == '-')
    ensures Tokenize(Render(steps) + ("." + body), isLetter).Error?
  {
    TokenizeSeparator(body, isLetter);
    JoinThenError(steps, false, "." + body, isLetter);
  }

  /** An INTEGER, `-` or `]` directly after a path, where a step would start,
      fails the scan, as it does at the first character. */
  lemma StrayAfterPath(steps: seq<Token>, body: string, isLetter: char -> bool)
    requires Admissible(isLetter) && WellFormed(steps, isLetter)
    requires |body| > 0 && (IsDigit(body[0]) || body[0] == ']' || body[0] == '-')
    ensures Tokenize(Render(steps) + body, isLetter).Error?
  {
    JoinThenError(steps, false, body, isLetter);
  }

  /** A successful scan that starts with `[` read `[`, an integer text and
      `]`, and its first step carries that integer. */
  lemma ListGroupShape(s: string, isLetter: char -> bool)
    requires Admissible(isLetter)
    requires |s| > 0 && s[0] == '[' && Tokenize(s, isLetter).Ok?
    ensures exists k :: 2 <= k < |s| && s[k] == ']'
                        && ParseInt(s[1..k]) == Some(Tokenize(s, isLetter).value[0].index)
  {
    assert GetToken(s, isLetter) == Some(Match(LList, 1));
    var group := ListToken(s, isLetter).value;
    assert Tokenize(s, isLetter).value[0] == List(group.0);
    ListTokenShape(s, isLetter);
  }

  /** A list group is `[`, an integer text and `]`, and carries that integer. */
  lemma ListTokenShape(s: string, isLetter: char -> bool)
    requires ListToken(s, isLetter).Some?
    ensures exists k :: 2 <= k < |s| && s[k] == ']'
                        && ParseInt(s[1..k]) == Some(ListToken(s, isLetter).value.0)
  {
    var m1 := GetToken(s, isLetter).value;
    assert m1.lexeme.LList?;
    assert m1.size == 1;
    var t := s[1..];
    var m2 := GetToken(t, isLetter).value;
    var k := 1 + m2.size;
    assert t[..m2.size] == s[1..k];
    assert m2.lexeme.Integer? && ParseInt(m2.lexeme.text) == Some(ListToken(s, isLetter).value.0);
    IntegerMatchText(t, isLetter);
    assert GetToken(s[k..], isLetter).value.lexeme.RList?;
    assert s[k..][0] == s[k];
  }

  /** The text of an INTEGER match is the prefix it spans. */
  lemma IntegerMatchText(t: string, isLetter: char -> bool)
    requires GetToken(t, isLetter).Some? && GetToken(t, isLetter).value.lexeme.Integer?
    ensures var m := GetToken(t, isLetter).value; m.lexeme.text == t[..m.size]
  {
    if IsDigit(t[0]) {
      assert GetToken(t, isLetter) == Some(Match(Integer(t[..DigitRun(t)]), DigitRun(t)));
    } else {
      assert GetToken(t, isLetter) == Some(Match(Integer(t[..1 + DigitRun(t[1..])]), 1 + DigitRun(t[1..])));
    }
  }
}
