/** The regular-expression path lexer of jsonxs/tokenizer.py.

    The letter class `[^\W\d_]` of the NAME rule is Unicode-dependent; it is
    a parameter `isLetter` here, constrained only by `Admissible`: no letter
    is a digit or one of the characters the grammar gives another meaning. */
module Tokenizer {
  import opened Results
  import opened Numerals

  /** One step of a path: a mapping key or a (possibly negative) list index. */
  datatype Token = Object(key: string) | List(index: int)

  /** What one match of the alternation `L_LIST|R_LIST|INTEGER|SEPERATOR|NAME`
      recognises, with the matched text where the scanner needs it. */
  datatype Lexeme = LList | RList | Integer(text: string) | Separator | Name(text: string)

  /** A lexeme and the number of characters it spans. */
  datatype Match = Match(lexeme: Lexeme, size: nat)

  ghost predicate Admissible(isLetter: char -> bool) {
    forall c :: isLetter(c) ==>
      !IsDigit(c) && c != '_' && c != '.' && c != '[' && c != ']' && c != '\\' && c != '-'
  }

  predicate AllLetters(w: string, isLetter: char -> bool) {
    forall j :: 0 <= j < |w| ==> isLetter(w[j])
  }

  /** A character that some lexeme can contain. */
  predicate Lexical(c: char, isLetter: char -> bool) {
    isLetter(c) || IsDigit(c) || c == '-' || c == '[' || c == ']' || c == '.' || c == '\\'
  }

  /** Length of the longest all-letter prefix of `s`: the greedy `[^\W\d_]+`. */
  function LetterRun(s: string, isLetter: char -> bool): (n: nat)
    ensures n <= |s|
    ensures AllLetters(s[..n], isLetter)
    ensures n < |s| ==> !isLetter(s[n])
  {
    if |s| > 0 && isLetter(s[0]) then 1 + LetterRun(s[1..], isLetter) else 0
  }

  /** Python's `str.replace('\.', '.')`: every backslash-dot pair, scanned left
      to right without overlap, becomes a dot. */
  function Unescape(t: string): (r: string)
    ensures |r| <= |t|
    ensures |t| > 0 && t[0] != '\\' ==> |r| > 0 && r[0] == t[0]
  {
    if |t| >= 2 && t[0] == '\\' && t[1] == '.' then "." + Unescape(t[2..])
    else if |t| == 0 then ""
    else [t[0]] + Unescape(t[1..])
  }

  /** The NAME rule `[^\W\d_]+(?:\\\.){0,1}[^\W\d_]+` under Python's
      backtracking matcher, as the number of characters it matches. The first
      letter run is taken whole, the escaped separator is tried before it is
      skipped, and when no escape follows, the first run gives its last letter
      to the second run, so an unescaped name needs two letters. */
  function MatchName(s: string, isLetter: char -> bool): (r: Option<nat>)
    ensures r.Some? ==> 2 <= r.value <= |s|
    ensures r.Some? ==> forall j :: 0 <= j < r.value ==> Lexical(s[j], isLetter)
  {
    var k := LetterRun(s, isLetter);
    if 1 <= k && k + 2 <= |s| && s[k] == '\\' && s[k + 1] == '.'
       && LetterRun(s[k + 2..], isLetter) >= 1
    then
      var m := LetterRun(s[k + 2..], isLetter);
      assert forall j :: k + 2 <= j < k + 2 + m ==> s[j] == s[k + 2..][j - (k + 2)];
      Some(k + 2 + m)
    else if k >= 2 then Some(k)
    else None
  }

  /** `get_token`: the first alternative of TOKEN_SPECIFICATION that matches
      at the start of `s`, or None when none does. */
  function GetToken(s: string, isLetter: char -> bool): (r: Option<Match>)
    ensures r.Some? ==> 1 <= r.value.size <= |s|
    ensures r.Some? ==> forall j :: 0 <= j < r.value.size ==> Lexical(s[j], isLetter)
  {
    if |s| == 0 then None
    else if s[0] == '[' then Some(Match(LList, 1))
    else if s[0] == ']' then Some(Match(RList, 1))
    else if IsDigit(s[0]) then
      var n := DigitRun(s);
      Some(Match(Integer(s[..n]), n))
    else if s[0] == '-' && |s| >= 2 && IsDigit(s[1]) then
      var n := 1 + DigitRun(s[1..]);
      assert forall j :: 1 <= j < n ==> s[j] == s[1..][..n - 1][j - 1];
      Some(Match(Integer(s[..n]), n))
    else if s[0] == '.' then Some(Match(Separator, 1))
    else
      match MatchName(s, isLetter)
      case Some(n) => Some(Match(Name(s[..n]), n))
      case None => None
  }

  /** `get_list_token`: three consecutive matches, which must be `[`, an
      INTEGER and `]`. Yields the index and the characters consumed. */
  function ListToken(s: string, isLetter: char -> bool): (r: Option<(int, nat)>)
    ensures r.Some? ==> 3 <= r.value.1 <= |s|
    ensures r.Some? ==> forall j :: 0 <= j < r.value.1 ==> Lexical(s[j], isLetter)
  {
    match GetToken(s, isLetter)
    case None => None
    case Some(m1) =>
      match GetToken(s[m1.size..], isLetter)
      case None => None
      case Some(m2) =>
        match GetToken(s[m1.size + m2.size..], isLetter)
        case None => None
        case Some(m3) =>
          if m1.lexeme.LList? && m2.lexeme.Integer? && m3.lexeme.RList? then
            match ParseInt(m2.lexeme.text)
            case None => None
            case Some(i) =>
              var n := m1.size + m2.size + m3.size;
              assert forall j :: m1.size <= j < m1.size + m2.size ==> s[j] == s[m1.size..][j - m1.size];
              assert forall j :: m1.size + m2.size <= j < n ==>
                  s[j] == s[m1.size + m2.size..][j - (m1.size + m2.size)];
              Some((i, n))
          else None
  }

  /** A key the NAME rule can produce: at least two letters, or two non-empty
      letter runs joined by one dot (the unescaped `\.`). */
  predicate IsKey(key: string, isLetter: char -> bool) {
    var k := LetterRun(key, isLetter);
    (k == |key| && k >= 2)
    || (1 <= k && k + 1 < |key| && key[k] == '.' && AllLetters(key[k + 1..], isLetter))
  }

  predicate WellFormed(steps: seq<Token>, isLetter: char -> bool) {
    forall j :: 0 <= j < |steps| ==> steps[j].Object? ==> IsKey(steps[j].key, isLetter)
  }

  /** `tokenize`: scan the whole expression left to right. A NAME yields an
      OBJECT step, `[` INTEGER `]` a LIST step and `.` nothing; an INTEGER or
      `]` where a step starts, a broken list group, or any input no lexeme
      matches is an error. */
  function Tokenize(s: string, isLetter: char -> bool): (r: Result<seq<Token>>)
    requires Admissible(isLetter)
    ensures r.Ok? ==> 2 * |r.value| <= |s|
    ensures r.Ok? ==> WellFormed(r.value, isLetter)
    ensures r.Ok? ==> forall j :: 0 <= j < |s| ==> Lexical(s[j], isLetter)
    ensures |s| > 0 && (IsDigit(s[0]) || s[0] == ']' || s[0] == '-') ==> r.Error?
    ensures r.Ok? && |s| > 0 && s[0] == '[' ==> |r.value| > 0 && r.value[0].List?
    ensures r.Ok? && |s| > 0 && isLetter(s[0]) ==> |r.value| > 0 && r.value[0].Object?
    decreases |s|
  {
    match GetToken(s, isLetter)
    case None => if |s| == 0 then Ok([]) else Error
    case Some(m) =>
      match m.lexeme
      case LList =>
        (match ListToken(s, isLetter)
         case None => Error
         case Some(group) =>
           var rest :- Tokenize(s[group.1..], isLetter);
           LexicalSuffix(s, group.1, isLetter);
           Ok([List(group.0)] + rest))
      case Separator =>
        var rest :- Tokenize(s[1..], isLetter);
        LexicalSuffix(s, 1, isLetter);
        Ok(rest)
      case Name(text) =>
        var rest :- Tokenize(s[m.size..], isLetter);
        LexicalSuffix(s, m.size, isLetter);
        NameIsKey(s, m.size, isLetter);
        Ok([Object(Unescape(text))] + rest)
      case _ => Error
  }

  /** Lexical characters of a matched prefix and of the rest make the whole
      string lexical. */
  lemma LexicalSuffix(s: string, n: nat, isLetter: char -> bool)
    requires n <= |s|
    requires forall j :: 0 <= j < n ==> Lexical(s[j], isLetter)
    requires forall j :: 0 <= j < |s[n..]| ==> Lexical(s[n..][j], isLetter)
    ensures forall j :: 0 <= j < |s| ==> Lexical(s[j], isLetter)
  {
    forall j | n <= j < |s|
      ensures Lexical(s[j], isLetter)
    {
      assert s[j] == s[n..][j - n];
    }
  }

  /** Unescaping leaves a backslash-free prefix alone. */
  lemma {:induction false} UnescapePlain(w: string, t: string)
    requires forall j :: 0 <= j < |w| ==> w[j] != '\\'
    ensures Unescape(w + t) == w + Unescape(t)
  {
    if |w| > 0 {
      assert (w + t)[1..] == w[1..] + t;
      UnescapePlain(w[1..], t);
      assert w == [w[0]] + w[1..];
    } else {
      assert w + t == t;
    }
  }

  /** The key of a NAME match is a key the grammar admits. */
  lemma NameIsKey(s: string, n: nat, isLetter: char -> bool)
    requires Admissible(isLetter)
    requires MatchName(s, isLetter) == Some(n)
    ensures IsKey(Unescape(s[..n]), isLetter)
  {
    var k := LetterRun(s, isLetter);
    var a := s[..k];
    if 1 <= k && k + 2 <= |s| && s[k] == '\\' && s[k + 1] == '.'
       && LetterRun(s[k + 2..], isLetter) >= 1
    {
      var m := LetterRun(s[k + 2..], isLetter);
      var b := s[k + 2..][..m];
      assert s[..n] == a + "\\." + b;
      EscapedKey(a, b, isLetter);
    } else {
      PlainKey(a, isLetter);
    }
  }

  /** The letter run of `s` is the unique `n` with letters before it and a
      non-letter (or the end) at it. */
  lemma {:induction false} LetterRunIs(s: string, n: nat, isLetter: char -> bool)
    requires n <= |s| && AllLetters(s[..n], isLetter)
    requires n < |s| ==> !isLetter(s[n])
    ensures LetterRun(s, isLetter) == n
  {
    if n > 0 {
      assert s[..n][0] == s[0];
      assert s[1..][..n - 1] == s[..n][1..];
      LetterRunIs(s[1..], n - 1, isLetter);
    }
  }

  /** An unescaped name is its own key. */
  lemma PlainKey(a: string, isLetter: char -> bool)
    requires Admissible(isLetter)
    requires |a| >= 2 && AllLetters(a, isLetter)
    ensures Unescape(a) == a
    ensures IsKey(a, isLetter)
  {
    UnescapePlain(a, "");
    assert a + "" == a;
    assert a[..|a|] == a;
    LetterRunIs(a, |a|, isLetter);
  }

  /** A name with one escaped separator unescapes to a dotted key. */
  lemma EscapedKey(a: string, b: string, isLetter: char -> bool)
    requires Admissible(isLetter)
    requires |a| >= 1 && AllLetters(a, isLetter)
    requires |b| >= 1 && AllLetters(b, isLetter)
    ensures Unescape(a + "\\." + b) == a + "." + b
    ensures IsKey(a + "." + b, isLetter)
  {
    UnescapeEscaped(a, b, isLetter);
    var key := a + "." + b;
    assert key[..|a|] == a;
    assert key[|a|] == '.';
    LetterRunIs(key, |a|, isLetter);
    assert key[|a| + 1..] == b;
  }

  lemma UnescapeEscaped(a: string, b: string, isLetter: char -> bool)
    requires Admissible(isLetter)
    requires AllLetters(a, isLetter) && AllLetters(b, isLetter)
    ensures Unescape(a + "\\." + b) == a + "." + b
  {
    assert a + "\\." + b == a + ("\\." + b);
    UnescapePlain(a, "\\." + b);
    UnescapePlain(b, "");
    assert ("\\." + b)[2..] == b;
    assert Unescape("\\." + b) == "." + Unescape(b);
    assert b + "" == b;
  }
}
