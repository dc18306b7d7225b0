/** Laws of the splitter of jsonxs/tokenize.py: a spelling for every token
    list it can produce, the round trip through it, and the behaviour of
    escapes, separators and brackets. */
module LegacySplitterLaws {
  import opened Results
  import opened Numerals
  import opened LegacySplitter

  /** The characters the splitter acts on. */
  predicate Special(c: char) {
    c == '\\' || c == '.' || c == '[' || c == ']'
  }

  predicate Plain(s: string) {
    forall j :: 0 <= j < |s| ==> !Special(s[j])
  }

  /** A key with a backslash before each special character. */
  function Esc(k: string): string {
    if |k| == 0 then ""
    else (if Special(k[0]) then ['\\', k[0]] else [k[0]]) + Esc(k[1..])
  }

  /** A key followed by a separator, an index in brackets. */
  function PartText(p: Part): string {
    match p
    case Key(k) => Esc(k) + "."
    case Index(n) => "[" + IntText(n) + "]"
  }

  function Spell(parts: seq<Part>): string
    decreases |parts|
  {
    if |parts| == 0 then "" else PartText(parts[0]) + Spell(parts[1..])
  }

  /** Running over two pieces is running over the first, then the second. */
  lemma {:induction false} RunConcat(st: State, a: string, b: string)
    ensures Run(st, a + b) == match Run(st, a) case Error => Error case Ok(mid) => Run(mid, b)
    decreases |a|
  {
    if |a| == 0 {
      assert a + b == b;
    } else {
      assert (a + b)[0] == a[0] && (a + b)[1..] == a[1..] + b;
      match Feed(st, a[0])
      case Error =>
      case Ok(next) => RunConcat(next, a[1..], b);
    }
  }

  /** Text without special characters only extends the pending text. */
  lemma {:induction false} PlainRun(ps: seq<Part>, pending: string, w: string)
    requires Plain(w)
    ensures Run(State(ps, false, pending), w) == Ok(State(ps, false, pending + w))
    decreases |w|
  {
    if |w| == 0 {
      assert pending + w == pending;
    } else {
      assert Feed(State(ps, false, pending), w[0]) == Ok(State(ps, false, pending + [w[0]]));
      PlainRun(ps, pending + [w[0]], w[1..]);
      assert pending + [w[0]] + w[1..] == pending + w;
    }
  }

  /** An escaped key is read back into the pending text literally. */
  lemma {:induction false} EscRun(ps: seq<Part>, pending: string, k: string)
    ensures Run(State(ps, false, pending), Esc(k)) == Ok(State(ps, false, pending + k))
    decreases |k|
  {
    if |k| == 0 {
      assert pending + k == pending;
    } else {
      var c := k[0];
      var st := State(ps, false, pending);
      var head: string := if Special(c) then ['\\', c] else [c];
      assert Run(st, head) == Ok(State(ps, false, pending + [c])) by {
        if Special(c) {
          var mid := State(ps, true, pending);
          assert Feed(st, '\\') == Ok(mid);
          assert head[1..] == [c];
          assert Run(mid, [c]) == Ok(State(ps, false, pending + [c]));
        }
      }
      RunConcat(st, head, Esc(k[1..]));
      EscRun(ps, pending + [c], k[1..]);
      assert pending + [c] + k[1..] == pending + k;
    }
  }

  /** The digits of an index are plain text. */
  lemma IntTextPlain(n: int)
    ensures Plain(IntText(n))
  {
  }

  /** One part's spelling, read from an empty buffer, emits that part. */
  lemma PartRun(ps: seq<Part>, p: Part)
    requires p.Key? ==> |p.name| > 0
    ensures Run(State(ps, false, ""), PartText(p)) == Ok(State(ps + [p], false, ""))
  {
    match p
    case Key(k) => KeyRun(ps, k);
    case Index(n) => IndexRun(ps, n);
  }

  lemma KeyRun(ps: seq<Part>, k: string)
    requires |k| > 0
    ensures Run(State(ps, false, ""), Esc(k) + ".") == Ok(State(ps + [Key(k)], false, ""))
  {
    var st := State(ps, false, "");
    assert Run(st, Esc(k)) == Ok(State(ps, false, k)) by {
      EscRun(ps, "", k);
      assert "" + k == k;
    }
    RunConcat(st, Esc(k), ".");
    assert Feed(State(ps, false, k), '.') == Ok(State(ps + [Key(k)], false, ""));
  }

  lemma IndexRun(ps: seq<Part>, n: int)
    ensures Run(State(ps, false, ""), "[" + IntText(n) + "]") == Ok(State(ps + [Index(n)], false, ""))
  {
    var st := State(ps, false, "");
    var digits := IntText(n);
    assert "[" + digits + "]" == "[" + (digits + "]");
    assert Run(st, "[") == Ok(st);
    RunConcat(st, "[", digits + "]");
    assert Run(st, digits) == Ok(State(ps, false, digits)) by {
      IntTextPlain(n);
      PlainRun(ps, "", digits);
      assert "" + digits == digits;
    }
    RunConcat(st, digits, "]");
    assert Feed(State(ps, false, digits), ']') == Ok(State(ps + [Index(n)], false, ""));
  }

  /** A spelled token list, after `ps`, appends exactly those tokens. */
  lemma {:induction false} SpellRun(ps: seq<Part>, parts: seq<Part>)
    requires NonEmptyKeys(parts)
    ensures Run(State(ps, false, ""), Spell(parts)) == Ok(State(ps + parts, false, ""))
    decreases |parts|
  {
    if |parts| == 0 {
      assert ps + parts == ps;
    } else {
      SpellStep(ps, parts);
      NonEmptyKeysTail(parts);
      SpellRun(ps + [parts[0]], parts[1..]);
      assert ps + [parts[0]] + parts[1..] == ps + parts;
    }
  }

  /** The first part's spelling emits the first part. */
  lemma SpellStep(ps: seq<Part>, parts: seq<Part>)
    requires |parts| > 0 && NonEmptyKeys(parts)
    ensures Run(State(ps, false, ""), Spell(parts)) == Run(State(ps + [parts[0]], false, ""), Spell(parts[1..]))
  {
    var st := State(ps, false, "");
    PartRun(ps, parts[0]);
    RunConcat(st, PartText(parts[0]), Spell(parts[1..]));
  }

  lemma NonEmptyKeysTail(parts: seq<Part>)
    requires |parts| > 0 && NonEmptyKeys(parts)
    ensures NonEmptyKeys(parts[1..])
  {
    forall j | 0 <= j < |parts[1..]| && parts[1..][j].Key?
      ensures |parts[1..][j].name| > 0
    {
      assert parts[1..][j] == parts[j + 1];
    }
  }

  /** The round trip: every token list without empty keys is what the
      splitter makes of its spelling. */
  lemma SplitSpell(parts: seq<Part>)
    requires NonEmptyKeys(parts)
    ensures Split(Spell(parts)) == Ok(parts)
  {
    SpellRun([], parts);
    assert [] + parts == parts;
  }

  /** Text left at the end becomes a final key: a spelled token list
      followed by an escaped non-empty key splits into the list and that
      key. */
  lemma TrailingKey(parts: seq<Part>, k: string)
    requires NonEmptyKeys(parts) && |k| > 0
    ensures Split(Spell(parts) + Esc(k)) == Ok(parts + [Key(k)])
  {
    RunConcat(Init(), Spell(parts), Esc(k));
    SpellRun([], parts);
    assert [] + parts == parts;
    EscRun(parts, "", k);
    assert "" + k == k;
  }

  /** Text without `\`, `.`, `[` or `]` is one key, or nothing when empty. */
  lemma PlainText(s: string)
    requires Plain(s)
    ensures Split(s) == Ok(if |s| > 0 then [Key(s)] else [])
  {
    var e: seq<Part> := [];
    PlainRun(e, "", s);
    assert "" + s == s;
    assert Init() == State(e, false, "");
    assert e + [Key(s)] == [Key(s)];
  }

  /** A backslash escapes the character after it, which is kept and the
      backslash dropped. */
  lemma EscapeKeepsNext(st: State, c: char, rest: string)
    requires !st.escape
    ensures Run(st, "\\" + [c] + rest) == Run(State(st.parts, false, st.pending + [c]), rest)
  {
    assert ("\\" + [c] + rest)[0] == '\\';
    assert ("\\" + [c] + rest)[1..] == [c] + rest;
    assert ([c] + rest)[0] == c && ([c] + rest)[1..] == rest;
  }

  /** With nothing pending, `.`, `[` and `]` change nothing: consecutive
      separators add no token. */
  lemma SeparatorsIdle(st: State, c: char)
    requires !st.escape && |st.pending| == 0 && (c == '.' || c == '[' || c == ']')
    ensures Feed(st, c) == Ok(st)
  {
  }

  /** `.` and `[` end the pending text as a string key. */
  lemma SeparatorEndsKey(st: State, c: char)
    requires !st.escape && |st.pending| > 0 && (c == '.' || c == '[')
    ensures Feed(st, c) == Ok(State(st.parts + [Key(st.pending)], false, ""))
  {
  }

  /** `]` turns the pending text into an integer index, and text that is
      not an integer makes the whole split fail. */
  lemma BracketNeedsInteger(s: string, t: string)
    requires Run(Init(), s).Ok?
    requires var st := Run(Init(), s).value;
             !st.escape && |st.pending| > 0 && ParseInt(st.pending).None?
    ensures Split(s + "]" + t).Error?
  {
    var st := Run(Init(), s).value;
    assert s + "]" + t == s + ("]" + t);
    RunConcat(Init(), s, "]" + t);
    assert ("]" + t)[0] == ']';
  }

  /** A trailing lone backslash is dropped. */
  lemma TrailingBackslash(s: string)
    requires Run(Init(), s).Ok? && !Run(Init(), s).value.escape
    ensures Split(s + "\\") == Split(s)
  {
    RunConcat(Init(), s, "\\");
    var st := Run(Init(), s).value;
    assert Run(st, "\\") == Ok(State(st.parts, true, st.pending));
  }

  /** `a\.b` is the single key `a.b`. */
  lemma EscapedDot(s: string)
    requires s == "a\\.b"
    ensures Split(s) == Ok([Key("a.b")])
  {
    var a, b := "a", "b";
    var e: seq<Part> := [];
    assert s == a + ("\\" + ['.'] + b);
    PlainRun(e, "", a);
    assert "" + a == a;
    RunConcat(Init(), a, "\\" + ['.'] + b);
    assert Run(Init(), a) == Ok(State(e, false, a));
    EscapeKeepsNext(State(e, false, a), '.', b);
    PlainRun(e, a + ['.'], b);
    assert Run(Init(), s) == Ok(State(e, false, a + ['.'] + b));
    assert a + ['.'] + b == "a.b";
    assert e + [Key("a.b")] == [Key("a.b")];
  }

  /** A separator at the end adds nothing once the pending text is a key. */
  lemma TrailingSeparator(s: string)
    requires Run(Init(), s).Ok? && !Run(Init(), s).value.escape
    ensures Split(s + ".") == Split(s)
  {
    RunConcat(Init(), s, ".");
    var st := Run(Init(), s).value;
    var e: string := "";
    assert Run(State(Flush(st.parts, st.pending), false, ""), e) == Ok(State(Flush(st.parts, st.pending), false, ""));
  }
}
