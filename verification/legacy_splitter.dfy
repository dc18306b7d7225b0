/** The older path splitter of jsonxs/tokenize.py: one pass over the
    characters with an escape flag and a pending-text buffer. `.` and `[`
    end a string key, `]` ends an integer index, a backslash makes the next
    character literal, and empty text is never emitted. */
module LegacySplitter {
  import opened Results
  import opened Numerals

  /** A token of the splitter: a string key or an integer index. */
  datatype Part = Key(name: string) | Index(number: int)

  /** The loop's variables: tokens so far, the escape flag, pending text. */
  datatype State = State(parts: seq<Part>, escape: bool, pending: string)

  function Init(): State {
    State([], false, "")
  }

  predicate NonEmptyKeys(ps: seq<Part>) {
    forall j :: 0 <= j < |ps| && ps[j].Key? ==> |ps[j].name| > 0
  }

  /** The pending text as a final key, if there is any. */
  function Flush(parts: seq<Part>, pending: string): seq<Part> {
    if |pending| > 0 then parts + [Key(pending)] else parts
  }

  /** One character of the loop. Only `]` after text that is not an
      integer fails. */
  function Feed(st: State, c: char): (r: Result<State>)
    ensures r.Error? <==> !st.escape && c == ']' && |st.pending| > 0 && ParseInt(st.pending).None?
    ensures r.Ok? ==> |r.value.parts| + |r.value.pending| <= |st.parts| + |st.pending| + 1
    ensures r.Ok? ==> |st.parts| <= |r.value.parts| && r.value.parts[..|st.parts|] == st.parts
    ensures r.Ok? && NonEmptyKeys(st.parts) ==> NonEmptyKeys(r.value.parts)
    ensures st.escape ==> r == Ok(State(st.parts, false, st.pending + [c]))
  {
    if st.escape then Ok(State(st.parts, false, st.pending + [c]))
    else if c == '\\' then Ok(State(st.parts, true, st.pending))
    else if c == '[' || c == '.' then Ok(State(Flush(st.parts, st.pending), false, ""))
    else if c == ']' then
      if |st.pending| > 0 then
        match ParseInt(st.pending)
        case None => Error
        case Some(n) => Ok(State(st.parts + [Index(n)], false, ""))
      else Ok(st)
    else Ok(State(st.parts, false, st.pending + [c]))
  }

  /** The loop over `s` from state `st`; the first failure ends it. */
  function Run(st: State, s: string): (r: Result<State>)
    ensures r.Ok? ==> |r.value.parts| + |r.value.pending| <= |st.parts| + |st.pending| + |s|
    ensures r.Ok? ==> |st.parts| <= |r.value.parts| && r.value.parts[..|st.parts|] == st.parts
    ensures r.Ok? && NonEmptyKeys(st.parts) ==> NonEmptyKeys(r.value.parts)
    decreases |s|
  {
    if |s| == 0 then Ok(st)
    else
      var next :- Feed(st, s[0]);
      Run(next, s[1..])
  }

  /** `tokenize(expr)` of jsonxs/tokenize.py. */
  function Split(s: string): (r: Result<seq<Part>>)
    ensures r.Ok? ==> |r.value| <= |s| && NonEmptyKeys(r.value)
  {
    var st :- Run(Init(), s);
    Ok(Flush(st.parts, st.pending))
  }

  /** The splitter as the source writes it: a loop over the characters. */
  method SplitLoop(s: string) returns (r: Result<seq<Part>>)
    ensures r == Split(s)
  {
    var tokens: seq<Part> := [];
    var escape := false;
    var cur := "";
    var i := 0;
    while i < |s|
      invariant 0 <= i <= |s|
      invariant Run(Init(), s) == Run(State(tokens, escape, cur), s[i..])
    {
      var c := s[i];
      assert s[i..][0] == c && s[i..][1..] == s[i + 1..];
      if escape {
        cur := cur + [c];
        escape := false;
      } else if c == '\\' {
        escape := true;
      } else if c == '[' || c == '.' {
        if |cur| > 0 {
          tokens := tokens + [Key(cur)];
          cur := "";
        }
      } else if c == ']' {
        if |cur| > 0 {
          var n := ParseInt(cur);
          if n.None? {
            return Error;
          }
          tokens := tokens + [Index(n.value)];
          cur := "";
        }
      } else {
        cur := cur + [c];
      }
      i := i + 1;
    }
    if |cur| > 0 {
      tokens := tokens + [Key(cur)];
    }
    return Ok(tokens);
  }
}
