/** The path evaluator of jsonxs/core.py: a walk over a JSON-like tree that
    follows the steps of a tokenized path, keeping the parent of the current
    node, and then applies one of seven actions at the last step. The source
    mutates the caller's tree in place; here every operation returns the
    rebuilt tree together with the value the call answers. */
module Evaluator {
  import opened Results
  import opened Tokenizer

  /** A tree of mappings with string keys, sequences and scalars. */
  datatype Json =
    | Null
    | Int(number: int)
    | Str(text: string)
    | Obj(fields: map<string, Json>)
    | Arr(items: seq<Json>)

  /** The `ACTION_*` constants. */
  datatype Action = Get | Set | Del | Append | Insert | MkDict | MkList

  /** The string each action is selected by. */
  function ActionName(a: Action): string {
    match a
    case Get => "get"
    case Set => "set"
    case Del => "del"
    case Append => "append"
    case Insert => "insert"
    case MkDict => "mkdict"
    case MkList => "mklist"
  }

  /** The action a string selects; any other string is an invalid action. */
  function ParseAction(s: string): (r: Option<Action>)
    ensures r.Some? ==> ActionName(r.value) == s
    ensures forall a: Action :: ActionName(a) == s ==> r == Some(a)
  {
    if s == "get" then Some(Get)
    else if s == "set" then Some(Set)
    else if s == "del" then Some(Del)
    else if s == "append" then Some(Append)
    else if s == "insert" then Some(Insert)
    else if s == "mkdict" then Some(MkDict)
    else if s == "mklist" then Some(MkList)
    else None
  }

  /** What a call leaves behind: the rebuilt tree, and the value it returns
      (`None` in Python, here `Null`, for every action but GET). */
  datatype Outcome = Outcome(tree: Json, answer: Json)

  /** Python's valid list indices for a list of length `n`. */
  predicate InRange(i: int, n: nat) {
    -(n as int) <= i < n
  }

  /** The position Python's negative-index convention gives `i`. */
  function Norm(i: int, n: nat): (j: nat)
    requires InRange(i, n)
    ensures j < n
    ensures i >= 0 ==> j == i
    ensures i < 0 ==> j + (-i) == n
  {
    if i >= 0 then i else n + i
  }

  /** `k` occurs in `s` as a contiguous piece. */
  predicate Substring(k: string, s: string)
    decreases |s|
  {
    |k| <= |s| && (s[..|k|] == k || Substring(k, s[1..]))
  }

  /** Python's `key in node`: key membership on a mapping, element
      membership on a sequence, substring on a string. `None` stands for the
      TypeError the operator raises on any other value. */
  function Member(node: Json, key: string): (r: Option<bool>)
    ensures r.None? <==> node.Null? || node.Int?
    ensures node.Obj? ==> r == Some(key in node.fields)
    ensures node.Arr? ==> r == Some(exists j :: 0 <= j < |node.items| && node.items[j] == Str(key))
    ensures node.Str? ==> r == Some(exists i :: OccursAt(key, node.text, i))
  {
    match node
    case Obj(m) => Some(key in m)
    case Arr(xs) => Some(Str(key) in xs)
    case Str(s) => SubstringAt(key, s); Some(Substring(key, s))
    case _ => None
  }

  /** `k` occurs in `s` starting at position `i`. */
  predicate OccursAt(k: string, s: string, i: int) {
    0 <= i && i + |k| <= |s| && s[i..i + |k|] == k
  }

  /** `Substring` finds exactly the positions where `k` occurs. */
  lemma {:induction false} SubstringAt(k: string, s: string)
    ensures Substring(k, s) <==> exists i :: OccursAt(k, s, i)
    decreases |s|
  {
    if |k| <= |s| {
      if |s| == 0 || s[..|k|] == k {
        assert s[0..0 + |k|] == k;
        assert OccursAt(k, s, 0);
      } else {
        var t := s[1..];
        SubstringAt(k, t);
        if Substring(k, t) {
          var i :| OccursAt(k, t, i);
          assert s[i + 1..i + 1 + |k|] == k;
          assert OccursAt(k, s, i + 1);
        }
        if i :| OccursAt(k, s, i) {
          assert i != 0 by {
            assert s[0..0 + |k|] == s[..|k|];
          }
          assert t[i - 1..i - 1 + |k|] == k;
          assert OccursAt(k, t, i - 1);
        }
      }
    }
  }

  /** The slot a step names, when the step strictly resolves in `node`. */
  function Child(node: Json, t: Token): (r: Option<Json>)
    ensures r.Some? <==> (t.Object? && node.Obj? && t.key in node.fields)
                         || (t.List? && node.Arr? && InRange(t.index, |node.items|))
  {
    match t
    case Object(k) => if node.Obj? && k in node.fields then Some(node.fields[k]) else None
    case List(i) =>
      if node.Arr? && InRange(i, |node.items|) then Some(node.items[Norm(i, |node.items|)]) else None
  }

  /** `node` with the slot a step names replaced by `x`; a mapping gains the
      key if it lacks it. Any other node is returned unchanged. */
  function Plug(node: Json, t: Token, x: Json): (r: Json)
    ensures r.Obj? == node.Obj? && r.Arr? == node.Arr?
    ensures node.Arr? ==> |r.items| == |node.items|
  {
    match t
    case Object(k) => if node.Obj? then Obj(node.fields[k := x]) else node
    case List(i) =>
      if node.Arr? && InRange(i, |node.items|) then Arr(node.items[Norm(i, |node.items|) := x]) else node
  }

  /** One turn of the walk, from the node `cur`. */
  datatype Move =
    | Down(parent: Json, child: Json)  // continue at `child`; `parent` is `cur` after any creation
    | Stay(node: Json)                 // continue at `node`, which takes the place of `cur`
    | Default                          // GET gives up and returns the default
    | Fail                             // an exception

  function Advance(cur: Json, t: Token, action: Action): (r: Move)
    ensures r.Down? ==> r.parent.Obj? == cur.Obj? && r.parent.Arr? == cur.Arr?
    ensures r.Down? ==> Child(r.parent, t) == Some(r.child)
    ensures r.Stay? ==> r.node.Obj? == cur.Obj? && r.node.Arr? == cur.Arr?
    ensures Child(cur, t).Some? ==> r == Down(cur, Child(cur, t).value)
    ensures r.Default? ==> action == Get
  {
    match t
    case List(i) =>
      if !cur.Arr? then Stay(cur)
      else if InRange(i, |cur.items|) then Down(cur, cur.items[Norm(i, |cur.items|)])
      else Fail
    case Object(k) =>
      match Member(cur, k)
      case None => Fail
      case Some(true) => if cur.Obj? then Down(cur, cur.fields[k]) else Fail
      case Some(false) =>
        match action
        case Get => Default
        case Set => if cur.Obj? then Down(Obj(cur.fields[k := Obj(map[])]), Obj(map[])) else Fail
        case MkDict => if cur.Obj? then Stay(Obj(cur.fields[k := Obj(map[])])) else Fail
        case MkList => if cur.Obj? then Down(Obj(cur.fields[k := Arr([])]), Arr([])) else Fail
        case _ => Stay(cur)
  }

  /** Python's `list.insert(i, x)`: a negative index counts from the end, and
      the position is clamped to the list. */
  function PyInsert(xs: seq<Json>, i: int, x: Json): (r: seq<Json>)
    ensures |r| == |xs| + 1
    ensures InRange(i, |xs|) ==> r[Norm(i, |xs|)] == x
    ensures InRange(i, |xs|) ==> r[..Norm(i, |xs|)] == xs[..Norm(i, |xs|)]
    ensures InRange(i, |xs|) ==> r[Norm(i, |xs|) + 1..] == xs[Norm(i, |xs|)..]
  {
    var j := if i < 0 then (if |xs| + i < 0 then 0 else |xs| + i) else (if i > |xs| then |xs| else i);
    xs[..j] + [x] + xs[j..]
  }

  /** `prev[key] = x`. A write of an integer key into a mapping is an
      error here: mappings have string keys only. */
  function Write(prev: Json, t: Token, x: Json): (r: Result<Outcome>)
    ensures r.Ok? <==> Child(prev, t).Some? || (t.Object? && prev.Obj?)
    ensures r.Ok? ==> Child(r.value.tree, t) == Some(x) && r.value.answer == Null
  {
    match t
    case Object(k) => if prev.Obj? then Ok(Outcome(Obj(prev.fields[k := x]), Null)) else Error
    case List(i) =>
      if prev.Arr? && InRange(i, |prev.items|) then Ok(Outcome(Arr(prev.items[Norm(i, |prev.items|) := x]), Null))
      else Error
  }

  /** `del prev[key]`. */
  function Remove(prev: Json, t: Token): (r: Result<Outcome>)
    ensures r.Ok? <==> Child(prev, t).Some?
    ensures r.Ok? && t.Object? ==> r.value.tree == Obj(prev.fields - {t.key})
    ensures r.Ok? && t.List? ==>
      var j := Norm(t.index, |prev.items|);
      r.value.tree == Arr(prev.items[..j] + prev.items[j + 1..])
  {
    match t
    case Object(k) => if prev.Obj? && k in prev.fields then Ok(Outcome(Obj(prev.fields - {k}), Null)) else Error
    case List(i) =>
      if prev.Arr? && InRange(i, |prev.items|) then
        var j := Norm(i, |prev.items|);
        Ok(Outcome(Arr(prev.items[..j] + prev.items[j + 1..]), Null))
      else Error
  }

  /** The action at the end of the walk, applied to `prev` with the last
      step `t`; `cur` is where the walk arrived. */
  function Terminal(prev: Json, t: Token, cur: Json, action: Action, value: Json): (r: Result<Outcome>)
    ensures r.Ok? ==> r.value.tree.Obj? == prev.Obj? && r.value.tree.Arr? == prev.Arr?
    ensures r.Ok? && action != Get ==> r.value.answer == Null
    ensures action == Get ==> r == Ok(Outcome(prev, cur))
  {
    match action
    case Get => Ok(Outcome(prev, cur))
    case Del => Remove(prev, t)
    case Set => Write(prev, t, value)
    case Append =>
      (match Child(prev, t)
       case Some(Arr(ys)) => Ok(Outcome(Plug(prev, t, Arr(ys + [value])), Null))
       case _ => Error)
    case Insert =>
      if prev.Arr? && t.List? then Ok(Outcome(Arr(PyInsert(prev.items, t.index, value)), Null)) else Error
    case MkDict =>
      // The source stores `{}` under the whole token rather than its key; a
      // mapping with string keys shows no change from that write.
      if prev.Obj? then Ok(Outcome(prev, Null)) else Error
    case MkList => Write(prev, t, Arr([]))
  }

  /** The walk from `cur` over a non-empty path, then the terminal action.
      The tree it returns keeps the kind of node `cur` is, and GET returns
      the tree it was given. */
  function Walk(cur: Json, path: seq<Token>, action: Action, value: Json, default: Json): (r: Result<Outcome>)
    requires |path| >= 1
    ensures r.Ok? ==> r.value.tree.Obj? == cur.Obj? && r.value.tree.Arr? == cur.Arr?
    ensures r.Ok? && action == Get ==> r.value.tree == cur
    ensures r.Ok? && action != Get ==> r.value.answer == Null
    decreases |path|
  {
    var t := path[0];
    match Advance(cur, t, action)
    case Fail => Error
    case Default => Ok(Outcome(cur, default))
    case Down(p, c) =>
      if |path| == 1 then Terminal(p, t, c, action, value)
      else
        var o :- Walk(c, path[1..], action, value, default);
        Ok(Outcome(Plug(p, t, o.tree), o.answer))
    case Stay(n) =>
      if |path| == 1 then Terminal(n, t, n, action, value)
      else Walk(n, path[1..], action, value, default)
  }

  /** The evaluator on a tokenized path. With no steps there is no parent:
      GET returns the root and every other action fails. */
  function Eval(root: Json, path: seq<Token>, action: Action, value: Json, default: Json): (r: Result<Outcome>)
    ensures |path| == 0 ==> (r.Ok? <==> action == Get)
    ensures r.Ok? && action == Get ==> r.value.tree == root
    ensures r.Ok? && action != Get ==> r.value.answer == Null
  {
    if |path| == 0 then (if action == Get then Ok(Outcome(root, root)) else Error)
    else Walk(root, path, action, value, default)
  }

  /** `jsonxs(data, expr, action, value, default)`: tokenize, then evaluate.
      A malformed expression or an unknown action fails. */
  function Jsonxs(data: Json, expr: string, action: string, value: Json, default: Json,
                  isLetter: char -> bool): (r: Result<Outcome>)
    requires Admissible(isLetter)
    ensures Tokenize(expr, isLetter).Error? ==> r.Error?
    ensures ParseAction(action).None? ==> r.Error?
    ensures r.Ok? ==> r == Eval(data, Tokenize(expr, isLetter).value, ParseAction(action).value, value, default)
  {
    var steps :- Tokenize(expr, isLetter);
    match ParseAction(action)
    case None => Error
    case Some(a) => Eval(data, steps, a, value, default)
  }
}
