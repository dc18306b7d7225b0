/** Laws of the evaluator, stated against a strict reference lookup: a path
    resolves when every OBJECT step finds its key in a mapping and every
    LIST step finds its index in a sequence. On such a path every action
    walks straight to the parent of the last step, so each action is
    characterized by what it does to that parent. */
module EvaluatorLaws {
  import opened Results
  import opened Tokenizer
  import opened Evaluator
  import TokenizerRender

  /** The value at the end of a path, when every step strictly resolves. */
  function Resolve(node: Json, path: seq<Token>): Option<Json>
    decreases |path|
  {
    if |path| == 0 then Some(node)
    else
      match Child(node, path[0])
      case None => None
      case Some(c) => Resolve(c, path[1..])
  }

  /** `node` with the value at a resolving path replaced by `x`. */
  function Put(node: Json, path: seq<Token>, x: Json): Json
    requires Resolve(node, path).Some?
    decreases |path|
  {
    if |path| == 0 then x
    else Plug(node, path[0], Put(Child(node, path[0]).value, path[1..], x))
  }

  /** A walk result seen from `root`, when it was computed at the node a
      resolving prefix `q` reaches. */
  function Lift(root: Json, q: seq<Token>, res: Result<Outcome>): Result<Outcome>
    requires Resolve(root, q).Some?
  {
    match res
    case Error => Error
    case Ok(o) => Ok(Outcome(Put(root, q, o.tree), o.answer))
  }

  lemma PlugChild(node: Json, t: Token)
    requires Child(node, t).Some?
    ensures Plug(node, t, Child(node, t).value) == node
  {
  }

  lemma ChildPlug(node: Json, t: Token, x: Json)
    requires Child(node, t).Some? || (t.Object? && node.Obj?)
    ensures Child(Plug(node, t, x), t) == Some(x)
  {
  }

  /** Putting back the value that is there changes nothing. */
  lemma {:induction false} PutResolved(root: Json, p: seq<Token>)
    requires Resolve(root, p).Some?
    ensures Put(root, p, Resolve(root, p).value) == root
    decreases |p|
  {
    if |p| > 0 {
      var c := Child(root, p[0]).value;
      PutResolved(c, p[1..]);
      PlugChild(root, p[0]);
    }
  }

  /** After a put, the path resolves to the value put there. */
  lemma {:induction false} ResolvePut(root: Json, p: seq<Token>, x: Json)
    requires Resolve(root, p).Some?
    ensures Resolve(Put(root, p, x), p) == Some(x)
    decreases |p|
  {
    if |p| > 0 {
      var c := Child(root, p[0]).value;
      ResolvePut(c, p[1..], x);
      ChildPlug(root, p[0], Put(c, p[1..], x));
    }
  }

  /** Resolving one step more is resolving the prefix, then that step. */
  lemma {:induction false} ResolveSnoc(root: Json, q: seq<Token>, t: Token)
    ensures Resolve(root, q + [t])
            == match Resolve(root, q) case None => None case Some(n) => Child(n, t)
    decreases |q|
  {
    if |q| == 0 {
      assert q + [t] == [t];
      assert [t][1..] == [];
    } else {
      assert (q + [t])[0] == q[0];
      assert (q + [t])[1..] == q[1..] + [t];
      if Child(root, q[0]).Some? {
        ResolveSnoc(Child(root, q[0]).value, q[1..], t);
      }
    }
  }

  /** A put one step below a prefix is a plug into the prefix's node. */
  lemma {:induction false} PutSnoc(root: Json, q: seq<Token>, t: Token, x: Json)
    requires Resolve(root, q).Some? && Child(Resolve(root, q).value, t).Some?
    ensures Resolve(root, q + [t]).Some?
    ensures Put(root, q + [t], x) == Put(root, q, Plug(Resolve(root, q).value, t, x))
    decreases |q|
  {
    ResolveSnoc(root, q, t);
    if |q| == 0 {
      assert q + [t] == [t];
      assert [t][1..] == [];
    } else {
      assert (q + [t])[0] == q[0];
      assert (q + [t])[1..] == q[1..] + [t];
      PutSnoc(Child(root, q[0]).value, q[1..], t, x);
    }
  }

  /** Along a resolving prefix every action only descends: the whole walk is
      the walk from the node the prefix reaches, put back in place. */
  lemma {:induction false} WalkLift(root: Json, q: seq<Token>, r: seq<Token>,
                                    a: Action, v: Json, d: Json)
    requires Resolve(root, q).Some? && |r| >= 1
    ensures Walk(root, q + r, a, v, d) == Lift(root, q, Walk(Resolve(root, q).value, r, a, v, d))
    decreases |q|
  {
    if |q| == 0 {
      assert q + r == r;
    } else {
      var t := q[0];
      var c := Child(root, t).value;
      assert (q + r)[0] == t;
      assert (q + r)[1..] == q[1..] + r;
      assert Advance(root, t, a) == Down(root, c);
      WalkLift(c, q[1..], r, a, v, d);
    }
  }

  /** `Eval` on a resolving prefix and one last step. */
  lemma EvalLast(root: Json, q: seq<Token>, t: Token, a: Action, v: Json, d: Json)
    requires Resolve(root, q).Some?
    ensures Eval(root, q + [t], a, v, d) == Lift(root, q, Walk(Resolve(root, q).value, [t], a, v, d))
  {
    WalkLift(root, q, [t], a, v, d);
  }

  /** GET on a resolving path returns the value there and leaves the tree
      alone; an empty path returns the root. */
  lemma GetResolved(root: Json, p: seq<Token>, v: Json, d: Json)
    requires Resolve(root, p).Some?
    ensures Eval(root, p, Get, v, d) == Ok(Outcome(root, Resolve(root, p).value))
  {
    if |p| > 0 {
      var q, t := p[..|p| - 1], p[|p| - 1];
      assert p == q + [t];
      ResolveSnoc(root, q, t);
      EvalLast(root, q, t, Get, v, d);
      PutResolved(root, q);
    }
  }

  /** GET returns the default as soon as an OBJECT step misses its key in a
      mapping, however many steps are left. */
  lemma GetMissingKey(root: Json, q: seq<Token>, k: string, rest: seq<Token>, v: Json, d: Json)
    requires Resolve(root, q).Some? && Resolve(root, q).value.Obj?
    requires k !in Resolve(root, q).value.fields
    ensures Eval(root, q + [Object(k)] + rest, Get, v, d) == Ok(Outcome(root, d))
  {
    assert q + [Object(k)] + rest == q + ([Object(k)] + rest);
    WalkLift(root, q, [Object(k)] + rest, Get, v, d);
    PutResolved(root, q);
  }

  /** An OBJECT step on a scalar is an error whatever the action: the
      default does not cover it. */
  lemma ObjectStepOnScalar(root: Json, q: seq<Token>, k: string, rest: seq<Token>,
                           a: Action, v: Json, d: Json)
    requires Resolve(root, q).Some?
    requires Resolve(root, q).value.Null? || Resolve(root, q).value.Int?
    ensures Eval(root, q + [Object(k)] + rest, a, v, d).Error?
  {
    assert q + [Object(k)] + rest == q + ([Object(k)] + rest);
    WalkLift(root, q, [Object(k)] + rest, a, v, d);
  }

  /** An OBJECT step on a string or a sequence: `in` looks for a substring or
      an element. When it finds the key, indexing with it is an error; when
      it does not, GET returns the default and SET, MKDICT and MKLIST fail. */
  lemma ObjectStepInSequence(root: Json, q: seq<Token>, k: string, rest: seq<Token>,
                             a: Action, v: Json, d: Json)
    requires Resolve(root, q).Some?
    requires Resolve(root, q).value.Str? || Resolve(root, q).value.Arr?
    ensures Member(Resolve(root, q).value, k) == Some(true) ==>
              Eval(root, q + [Object(k)] + rest, a, v, d).Error?
    ensures Member(Resolve(root, q).value, k) == Some(false) && a == Get ==>
              Eval(root, q + [Object(k)] + rest, a, v, d) == Ok(Outcome(root, d))
    ensures Member(Resolve(root, q).value, k) == Some(false) && (a == Set || a == MkDict || a == MkList) ==>
              Eval(root, q + [Object(k)] + rest, a, v, d).Error?
  {
    assert q + [Object(k)] + rest == q + ([Object(k)] + rest);
    WalkLift(root, q, [Object(k)] + rest, a, v, d);
    PutResolved(root, q);
  }

  /** DEL, APPEND and INSERT step over a key that `in` does not find: the
      path without that step behaves the same, and with no step after it
      the action fails. So DEL of `a.b` with `a` missing deletes `b` one
      level up. */
  lemma ObjectSkip(root: Json, q: seq<Token>, k: string, rest: seq<Token>,
                   a: Action, v: Json, d: Json)
    requires Resolve(root, q).Some? && Member(Resolve(root, q).value, k) == Some(false)
    requires a == Del || a == Append || a == Insert
    ensures |rest| >= 1 ==> Eval(root, q + [Object(k)] + rest, a, v, d) == Eval(root, q + rest, a, v, d)
    ensures |rest| == 0 ==> Eval(root, q + [Object(k)] + rest, a, v, d).Error?
  {
    if |rest| == 0 {
      assert q + [Object(k)] + rest == q + [Object(k)];
      SkipLast(root, q, k, a, v, d);
    } else {
      SkipInside(root, q, k, rest, a, v, d);
    }
  }

  lemma SkipLast(root: Json, q: seq<Token>, k: string, a: Action, v: Json, d: Json)
    requires Resolve(root, q).Some? && Member(Resolve(root, q).value, k) == Some(false)
    requires a == Del || a == Append || a == Insert
    ensures Eval(root, q + [Object(k)], a, v, d).Error?
  {
    var n := Resolve(root, q).value;
    assert Advance(n, Object(k), a) == Stay(n);
    EvalLast(root, q, Object(k), a, v, d);
  }

  lemma SkipInside(root: Json, q: seq<Token>, k: string, rest: seq<Token>,
                   a: Action, v: Json, d: Json)
    requires Resolve(root, q).Some? && Member(Resolve(root, q).value, k) == Some(false)
    requires a == Del || a == Append || a == Insert
    requires |rest| >= 1
    ensures Eval(root, q + [Object(k)] + rest, a, v, d) == Eval(root, q + rest, a, v, d)
  {
    var n := Resolve(root, q).value;
    assert Advance(n, Object(k), a) == Stay(n);
    assert q + [Object(k)] + rest == q + ([Object(k)] + rest);
    WalkLift(root, q, [Object(k)] + rest, a, v, d);
    WalkLift(root, q, rest, a, v, d);
    assert ([Object(k)] + rest)[1..] == rest;
  }

  /** MKLIST creates `[]` at a missing key and descends into it, so any
      further step fails there. */
  lemma MkListThenStep(root: Json, q: seq<Token>, k: string, t: Token, rest: seq<Token>, v: Json, d: Json)
    requires Resolve(root, q).Some? && Resolve(root, q).value.Obj?
    requires k !in Resolve(root, q).value.fields
    ensures Eval(root, q + [Object(k)] + ([t] + rest), MkList, v, d).Error?
  {
    assert q + [Object(k)] + ([t] + rest) == q + ([Object(k)] + ([t] + rest));
    WalkLift(root, q, [Object(k)] + ([t] + rest), MkList, v, d);
    assert ([Object(k)] + ([t] + rest))[1..] == [t] + rest;
    assert Advance(Arr([]), t, MkList) == Fail;
  }

  /** An index outside a sequence is an error for every action, GET
      included. */
  lemma ListOutOfRange(root: Json, q: seq<Token>, i: int, rest: seq<Token>,
                       a: Action, v: Json, d: Json)
    requires Resolve(root, q).Some? && Resolve(root, q).value.Arr?
    requires !InRange(i, |Resolve(root, q).value.items|)
    ensures Eval(root, q + [List(i)] + rest, a, v, d).Error?
  {
    assert q + [List(i)] + rest == q + ([List(i)] + rest);
    WalkLift(root, q, [List(i)] + rest, a, v, d);
  }

  /** A LIST step on a node that is not a sequence is skipped: the path
      without it behaves the same. */
  lemma ListSkip(root: Json, q: seq<Token>, i: int, rest: seq<Token>,
                 a: Action, v: Json, d: Json)
    requires Resolve(root, q).Some? && !Resolve(root, q).value.Arr? && |rest| >= 1
    ensures Eval(root, q + [List(i)] + rest, a, v, d) == Eval(root, q + rest, a, v, d)
  {
    assert q + [List(i)] + rest == q + ([List(i)] + rest);
    WalkLift(root, q, [List(i)] + rest, a, v, d);
    WalkLift(root, q, rest, a, v, d);
    assert ([List(i)] + rest)[1..] == rest;
  }
  /** A LIST step that ends a GET path on a node that is not a list is
      skipped too: the node itself is the answer. */
  lemma ListSkipLastGet(root: Json, q: seq<Token>, i: int, v: Json, d: Json)
    requires Resolve(root, q).Some? && !Resolve(root, q).value.Arr?
    ensures Eval(root, q + [List(i)], Get, v, d) == Eval(root, q, Get, v, d)
  {
    EvalLast(root, q, List(i), Get, v, d);
    PutResolved(root, q);
    GetResolved(root, q, v, d);
  }


  /** Index `-1` is the last element. */
  lemma GetLastElement(root: Json, q: seq<Token>, v: Json, d: Json)
    requires Resolve(root, q).Some? && Resolve(root, q).value.Arr?
    requires |Resolve(root, q).value.items| > 0
    ensures var xs := Resolve(root, q).value.items;
            Eval(root, q + [List(-1)], Get, v, d) == Ok(Outcome(root, xs[|xs| - 1]))
  {
    ResolveSnoc(root, q, List(-1));
    GetResolved(root, q + [List(-1)], v, d);
  }

  /** The last step of a SET walk, then GET. */
  lemma SetGetLast(cur: Json, t: Token, v: Json, w: Json, u: Json, d: Json)
    requires Walk(cur, [t], Set, v, w).Ok?
    ensures var o := Walk(cur, [t], Set, v, w).value;
            Walk(o.tree, [t], Get, u, d) == Ok(Outcome(o.tree, v))
  {
    var o := Walk(cur, [t], Set, v, w).value;
    assert Child(o.tree, t) == Some(v);
  }

  /** A descending step of a SET walk, then GET, given the claim for the
      rest of the path. */
  lemma SetGetDown(cur: Json, p: seq<Token>, pp: Json, c: Json, v: Json, w: Json, u: Json, d: Json)
    requires |p| > 1 && Advance(cur, p[0], Set) == Down(pp, c) && Walk(cur, p, Set, v, w).Ok?
    requires Walk(c, p[1..], Set, v, w).Ok?
    requires var o1 := Walk(c, p[1..], Set, v, w).value;
             Walk(o1.tree, p[1..], Get, u, d) == Ok(Outcome(o1.tree, v))
    ensures var o := Walk(cur, p, Set, v, w).value;
            Walk(o.tree, p, Get, u, d) == Ok(Outcome(o.tree, v))
  {
    var t := p[0];
    var o := Walk(cur, p, Set, v, w).value;
    var o1 := Walk(c, p[1..], Set, v, w).value;
    assert o.tree == Plug(pp, t, o1.tree);
    ChildPlug(pp, t, o1.tree);
    assert Advance(o.tree, t, Get) == Down(o.tree, o1.tree);
    PlugChild(o.tree, t);
  }

  /** A skipped step of a SET walk, then GET, given the claim for the rest
      of the path. */
  lemma SetGetStay(cur: Json, p: seq<Token>, v: Json, w: Json, u: Json, d: Json)
    requires |p| > 1 && Advance(cur, p[0], Set) == Stay(cur) && Walk(cur, p, Set, v, w).Ok?
    requires var o1 := Walk(cur, p[1..], Set, v, w).value;
             Walk(o1.tree, p[1..], Get, u, d) == Ok(Outcome(o1.tree, v))
    ensures var o := Walk(cur, p, Set, v, w).value;
            Walk(o.tree, p, Get, u, d) == Ok(Outcome(o.tree, v))
  {
    var o := Walk(cur, p, Set, v, w).value;
    assert !cur.Arr? && !o.tree.Arr?;
    assert Advance(o.tree, p[0], Get) == Stay(o.tree);
  }

  /** The walk of SET, then GET on the tree it left: the same path now
      leads to the value set. */
  lemma {:induction false} WalkSetGet(cur: Json, p: seq<Token>, v: Json, w: Json, u: Json, d: Json)
    requires |p| >= 1 && Walk(cur, p, Set, v, w).Ok?
    ensures var o := Walk(cur, p, Set, v, w).value;
            Walk(o.tree, p, Get, u, d) == Ok(Outcome(o.tree, v))
    decreases |p|
  {
    if |p| == 1 {
      assert p == [p[0]];
      SetGetLast(cur, p[0], v, w, u, d);
    } else {
      match Advance(cur, p[0], Set)
      case Down(pp, c) =>
        WalkSetGet(c, p[1..], v, w, u, d);
        SetGetDown(cur, p, pp, c, v, w, u, d);
      case Stay(n) =>
        WalkSetGet(n, p[1..], v, w, u, d);
        SetGetStay(cur, p, v, w, u, d);
    }
  }

  /** SET then GET on the same path returns the value set, whether the path
      existed or was created. */
  lemma SetThenGet(root: Json, p: seq<Token>, v: Json, w: Json, u: Json, d: Json)
    requires Eval(root, p, Set, v, w).Ok?
    ensures var t := Eval(root, p, Set, v, w).value.tree;
            Eval(t, p, Get, u, d) == Ok(Outcome(t, v))
  {
    WalkSetGet(root, p, v, w, u, d);
  }

  /** SET on a resolving path puts the value there and nowhere else. */
  lemma SetExisting(root: Json, p: seq<Token>, v: Json, d: Json)
    requires |p| >= 1 && Resolve(root, p).Some?
    ensures Eval(root, p, Set, v, d) == Ok(Outcome(Put(root, p, v), Null))
  {
    var q, t := p[..|p| - 1], p[|p| - 1];
    assert p == q + [t];
    ResolveSnoc(root, q, t);
    EvalLast(root, q, t, Set, v, d);
    PutSnoc(root, q, t, v);
  }

  /** SET of a key of a mapping, present or not, writes that key alone. */
  lemma SetKey(root: Json, q: seq<Token>, k: string, v: Json, d: Json)
    requires Resolve(root, q).Some? && Resolve(root, q).value.Obj?
    ensures var m := Resolve(root, q).value.fields;
            Eval(root, q + [Object(k)], Set, v, d) == Ok(Outcome(Put(root, q, Obj(m[k := v])), Null))
  {
    EvalLast(root, q, Object(k), Set, v, d);
    var m := Resolve(root, q).value.fields;
    if k !in m {
      assert m[k := Obj(map[])][k := v] == m[k := v];
    }
  }

  /** SET through a missing key creates a mapping holding the next key. */
  lemma SetCreatesPath(root: Json, q: seq<Token>, k1: string, k2: string, v: Json, d: Json)
    requires Resolve(root, q).Some? && Resolve(root, q).value.Obj?
    requires k1 !in Resolve(root, q).value.fields
    ensures var m := Resolve(root, q).value.fields;
            Eval(root, q + [Object(k1), Object(k2)], Set, v, d)
            == Ok(Outcome(Put(root, q, Obj(m[k1 := Obj(map[k2 := v])])), Null))
  {
    var m := Resolve(root, q).value.fields;
    var e: map<string, Json> := map[];
    WalkLift(root, q, [Object(k1), Object(k2)], Set, v, d);
    assert [Object(k1), Object(k2)][1..] == [Object(k2)];
    assert Advance(Obj(m), Object(k1), Set) == Down(Obj(m[k1 := Obj(e)]), Obj(e));
    assert Advance(Obj(e), Object(k2), Set) == Down(Obj(e[k2 := Obj(e)]), Obj(e));
    assert e[k2 := Obj(e)][k2 := v] == map[k2 := v];
    assert Walk(Obj(e), [Object(k2)], Set, v, d) == Ok(Outcome(Obj(map[k2 := v]), Null));
    assert m[k1 := Obj(e)][k1 := Obj(map[k2 := v])] == m[k1 := Obj(map[k2 := v])];
  }

  /** Writing one key of a mapping leaves every other key where it was. */
  lemma PutKeepsSiblings(root: Json, q: seq<Token>, m: map<string, Json>, k: string)
    requires Resolve(root, q).Some? && k in m
    ensures Resolve(Put(root, q, Obj(m)), q + [Object(k)]) == Some(m[k])
  {
    ResolvePut(root, q, Obj(m));
    ResolveSnoc(Put(root, q, Obj(m)), q, Object(k));
  }

  /** SET of one key of a mapping leaves every other key of it readable
      with its old value. */
  lemma SetKeepsSibling(root: Json, q: seq<Token>, k: string, j: string, v: Json, d: Json)
    requires Resolve(root, q).Some? && Resolve(root, q).value.Obj?
    requires j != k && j in Resolve(root, q).value.fields
    ensures var m := Resolve(root, q).value.fields;
            Eval(root, q + [Object(k)], Set, v, d).Ok?
            && Resolve(Eval(root, q + [Object(k)], Set, v, d).value.tree, q + [Object(j)]) == Some(m[j])
  {
    var m := Resolve(root, q).value.fields;
    SetKey(root, q, k, v, d);
    PutKeepsSiblings(root, q, m[k := v], j);
  }

  /** DEL removes exactly the terminal key of a mapping. */
  lemma DelKey(root: Json, q: seq<Token>, k: string, v: Json, d: Json)
    requires Resolve(root, q).Some? && Resolve(root, q).value.Obj?
    requires k in Resolve(root, q).value.fields
    ensures var m := Resolve(root, q).value.fields;
            Eval(root, q + [Object(k)], Del, v, d) == Ok(Outcome(Put(root, q, Obj(m - {k})), Null))
  {
    EvalLast(root, q, Object(k), Del, v, d);
  }

  /** DEL of a key the mapping lacks is an error. */
  lemma DelMissingKey(root: Json, q: seq<Token>, k: string, v: Json, d: Json)
    requires Resolve(root, q).Some? && Resolve(root, q).value.Obj?
    requires k !in Resolve(root, q).value.fields
    ensures Eval(root, q + [Object(k)], Del, v, d).Error?
  {
    EvalLast(root, q, Object(k), Del, v, d);
  }

  /** DEL removes the element an index names; later elements move down. */
  lemma DelElement(root: Json, q: seq<Token>, i: int, v: Json, d: Json)
    requires Resolve(root, q).Some? && Resolve(root, q).value.Arr?
    requires InRange(i, |Resolve(root, q).value.items|)
    ensures var xs := Resolve(root, q).value.items;
            var j := Norm(i, |xs|);
            Eval(root, q + [List(i)], Del, v, d)
            == Ok(Outcome(Put(root, q, Arr(xs[..j] + xs[j + 1..])), Null))
  {
    EvalLast(root, q, List(i), Del, v, d);
  }

  /** APPEND adds the value at the end of the sequence a path resolves to. */
  lemma AppendGrows(root: Json, p: seq<Token>, v: Json, d: Json)
    requires |p| >= 1 && Resolve(root, p).Some? && Resolve(root, p).value.Arr?
    ensures var xs := Resolve(root, p).value.items;
            Eval(root, p, Append, v, d) == Ok(Outcome(Put(root, p, Arr(xs + [v])), Null))
  {
    var q, t := p[..|p| - 1], p[|p| - 1];
    assert p == q + [t];
    ResolveSnoc(root, q, t);
    EvalLast(root, q, t, Append, v, d);
    PutSnoc(root, q, t, Arr(Resolve(root, p).value.items + [v]));
  }

  /** APPEND to anything but a sequence is an error. */
  lemma AppendNeedsList(root: Json, p: seq<Token>, v: Json, d: Json)
    requires |p| >= 1 && Resolve(root, p).Some? && !Resolve(root, p).value.Arr?
    ensures Eval(root, p, Append, v, d).Error?
  {
    var q, t := p[..|p| - 1], p[|p| - 1];
    assert p == q + [t];
    ResolveSnoc(root, q, t);
    EvalLast(root, q, t, Append, v, d);
  }

  /** INSERT at `[i]` inserts into the sequence that holds index `i`, before
      the element there. */
  lemma InsertAt(root: Json, q: seq<Token>, i: int, v: Json, d: Json)
    requires Resolve(root, q).Some? && Resolve(root, q).value.Arr?
    requires InRange(i, |Resolve(root, q).value.items|)
    ensures var xs := Resolve(root, q).value.items;
            var j := Norm(i, |xs|);
            Eval(root, q + [List(i)], Insert, v, d)
            == Ok(Outcome(Put(root, q, Arr(xs[..j] + [v] + xs[j..])), Null))
  {
    var xs := Resolve(root, q).value.items;
    var j := Norm(i, |xs|);
    EvalLast(root, q, List(i), Insert, v, d);
    assert PyInsert(xs, i, v) == xs[..j] + [v] + xs[j..];
  }

  /** INSERT needs a LIST step last. */
  lemma InsertNeedsIndex(root: Json, q: seq<Token>, k: string, v: Json, d: Json)
    requires Resolve(root, q).Some?
    ensures Eval(root, q + [Object(k)], Insert, v, d).Error?
  {
    EvalLast(root, q, Object(k), Insert, v, d);
  }

  /** MKLIST leaves `[]` at a key of a mapping, whether the key was there or
      not. */
  lemma MkListLeavesEmpty(root: Json, q: seq<Token>, k: string, v: Json, d: Json)
    requires Resolve(root, q).Some? && Resolve(root, q).value.Obj?
    ensures var m := Resolve(root, q).value.fields;
            Eval(root, q + [Object(k)], MkList, v, d) == Ok(Outcome(Put(root, q, Obj(m[k := Arr([])])), Null))
  {
    EvalLast(root, q, Object(k), MkList, v, d);
    var m := Resolve(root, q).value.fields;
    assert m[k := Arr([])][k := Arr([])] == m[k := Arr([])];
  }

  /** MKDICT leaves `{}` at a key a mapping lacks. */
  lemma MkDictMissing(root: Json, q: seq<Token>, k: string, v: Json, d: Json)
    requires Resolve(root, q).Some? && Resolve(root, q).value.Obj?
    requires k !in Resolve(root, q).value.fields
    ensures var m := Resolve(root, q).value.fields;
            Eval(root, q + [Object(k)], MkDict, v, d) == Ok(Outcome(Put(root, q, Obj(m[k := Obj(map[])])), Null))
  {
    EvalLast(root, q, Object(k), MkDict, v, d);
  }

  /** MKDICT does not descend into what it creates: two missing keys become
      two empty mappings side by side, not one inside the other. */
  lemma MkDictSiblings(root: Json, q: seq<Token>, k1: string, k2: string, v: Json, d: Json)
    requires Resolve(root, q).Some? && Resolve(root, q).value.Obj?
    requires k1 !in Resolve(root, q).value.fields && k2 !in Resolve(root, q).value.fields && k1 != k2
    ensures var m := Resolve(root, q).value.fields;
            Eval(root, q + [Object(k1), Object(k2)], MkDict, v, d)
            == Ok(Outcome(Put(root, q, Obj(m[k1 := Obj(map[])][k2 := Obj(map[])])), Null))
  {
    WalkLift(root, q, [Object(k1), Object(k2)], MkDict, v, d);
    assert [Object(k1), Object(k2)][1..] == [Object(k2)];
  }

  /** End to end: evaluating the canonical text of a well-formed path with
      an action's name is evaluating that path with that action. */
  lemma JsonxsRender(data: Json, p: seq<Token>, a: Action, v: Json, d: Json, isLetter: char -> bool)
    requires Admissible(isLetter) && WellFormed(p, isLetter)
    ensures Jsonxs(data, TokenizerRender.Render(p), ActionName(a), v, d, isLetter) == Eval(data, p, a, v, d)
  {
    TokenizerRender.TokenizeRender(p, isLetter);
    assert ParseAction(ActionName(a)) == Some(a);
  }
}
