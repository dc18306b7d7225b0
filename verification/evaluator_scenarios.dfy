/** The expectations of tests/test_jsonsx.py, on its example tree, stated
    over the evaluator with the paths already tokenized. */
module EvaluatorScenarios {
  import opened Results
  import opened Tokenizer
  import opened Evaluator
  import opened EvaluatorLaws
  import opened TokenizerRender
  import opened TokenizerScenarios

  /** The tree the tests start from. */
  function Feed(): Json {
    Obj(map[
      "id" := Str("my_feed"),
      "url" := Str("http://example.com/feed.rss"),
      "tags" := Arr([Str("devel"), Str("example"), Str("python")]),
      "short.desc" := Str("A feed"),
      "list" := Arr([Obj(map["uuid" := Str("e9b48a2")])])
    ])
  }

  function Example(): Json {
    Obj(map["feed" := Feed()])
  }

  /** `feed.tags[-1]` reads the last tag. */
  lemma GetPath()
    ensures Eval(Example(), [Object("feed"), Object("tags"), List(-1)], Get, Null, Null)
            == Ok(Outcome(Example(), Str("python")))
  {
  }

  /** `feed.id[0]` on the string `id` skips the index and reads the string. */
  lemma GetSkipsIndex()
    ensures Eval(Example(), [Object("feed"), Object("id"), List(0)], Get, Null, Null)
            == Ok(Outcome(Example(), Str("my_feed")))
  {
  }

  /** The example tree with `feed` replaced. */
  function WithFeed(feed: map<string, Json>): Json {
    Obj(map["feed" := Obj(feed)])
  }

  /** `feed.short\.desc` reads the key holding a dot. */
  lemma GetDottedKey()
    ensures Eval(Example(), [Object("feed"), Object("short.desc")], Get, Null, Null)
            == Ok(Outcome(Example(), Str("A feed")))
  {
  }

  /** `feed.long\.desc` is missing, so GET returns the default. */
  lemma GetDefault()
    ensures Eval(Example(), [Object("feed"), Object("long.desc")], Get, Null, Str("N/A"))
            == Ok(Outcome(Example(), Str("N/A")))
  {
  }

  /** A mutation below `feed` seen from the root. */
  lemma InFeed(p: seq<Token>, a: Action, v: Json, feed: map<string, Json>)
    requires |p| >= 1 && a != Get
    requires Walk(Feed(), p, a, v, Null) == Ok(Outcome(Obj(feed), Null))
    ensures Eval(Example(), [Object("feed")] + p, a, v, Null) == Ok(Outcome(WithFeed(feed), Null))
  {
    var path := [Object("feed")] + p;
    assert path[0] == Object("feed") && path[1..] == p;
    assert Advance(Example(), Object("feed"), a) == Down(Example(), Feed());
    assert map["feed" := Feed()]["feed" := Obj(feed)] == map["feed" := Obj(feed)];
  }

  /** `feed.id` set to a new string. */
  lemma SetValue()
    ensures Eval(Example(), [Object("feed"), Object("id")], Set, Str("your_feed"), Null)
            == Ok(Outcome(WithFeed(Feed().fields["id" := Str("your_feed")]), Null))
  {
    InFeed([Object("id")], Set, Str("your_feed"), Feed().fields["id" := Str("your_feed")]);
    assert [Object("feed")] + [Object("id")] == [Object("feed"), Object("id")];
  }

  /** `feed.tags[-1]` replaced. */
  lemma SetListElement()
    ensures Eval(Example(), [Object("feed"), Object("tags"), List(-1)], Set, Str("javascript"), Null)
            == Ok(Outcome(WithFeed(Feed().fields["tags" := Arr([Str("devel"), Str("example"), Str("javascript")])]), Null))
  {
    var tags := [Str("devel"), Str("example"), Str("python")];
    var v := Str("javascript");
    assert tags[2 := v] == [Str("devel"), Str("example"), v];
    assert Walk(Arr(tags), [List(-1)], Set, v, Null) == Ok(Outcome(Arr(tags[2 := v]), Null));
    InFeed([Object("tags"), List(-1)], Set, v, Feed().fields["tags" := Arr(tags[2 := v])]);
    assert [Object("feed")] + [Object("tags"), List(-1)] == [Object("feed"), Object("tags"), List(-1)];
  }

  /** `missing.path` set: the missing mapping is created on the way. */
  lemma SetCreatesMissing()
    ensures Eval(Example(), [Object("missing"), Object("path")], Set, Str("Something New"), Null)
            == Ok(Outcome(Obj(map["feed" := Feed(), "missing" := Obj(map["path" := Str("Something New")])]), Null))
  {
    var v := Str("Something New");
    SetCreatesPath(Example(), [], "missing", "path", v, Null);
    assert [] + [Object("missing"), Object("path")] == [Object("missing"), Object("path")];
    assert map["feed" := Feed()]["missing" := Obj(map["path" := v])]
        == map["feed" := Feed(), "missing" := Obj(map["path" := v])];
  }

  /** `feed.tags[0]` deleted. */
  lemma DelListElement()
    ensures Eval(Example(), [Object("feed"), Object("tags"), List(0)], Del, Null, Null)
            == Ok(Outcome(WithFeed(Feed().fields["tags" := Arr([Str("example"), Str("python")])]), Null))
  {
    var tags := [Str("devel"), Str("example"), Str("python")];
    assert tags[..0] + tags[1..] == [Str("example"), Str("python")];
    assert Walk(Arr(tags), [List(0)], Del, Null, Null) == Ok(Outcome(Arr([Str("example"), Str("python")]), Null));
    InFeed([Object("tags"), List(0)], Del, Null, Feed().fields["tags" := Arr([Str("example"), Str("python")])]);
    assert [Object("feed")] + [Object("tags"), List(0)] == [Object("feed"), Object("tags"), List(0)];
  }

  /** `feed.url` deleted. */
  lemma DelObjectKey()
    ensures Eval(Example(), [Object("feed"), Object("url")], Del, Null, Null)
            == Ok(Outcome(WithFeed(Feed().fields - {"url"}), Null))
  {
    InFeed([Object("url")], Del, Null, Feed().fields - {"url"});
    assert [Object("feed")] + [Object("url")] == [Object("feed"), Object("url")];
  }

  /** `feed.tags` gains a last element. */
  lemma AppendToList()
    ensures Eval(Example(), [Object("feed"), Object("tags")], Append, Str("programming"), Null)
            == Ok(Outcome(WithFeed(Feed().fields["tags" := Arr([Str("devel"), Str("example"), Str("python"), Str("programming")])]), Null))
  {
    var tags := [Str("devel"), Str("example"), Str("python")];
    var v := Str("programming");
    assert tags + [v] == [Str("devel"), Str("example"), Str("python"), v];
    InFeed([Object("tags")], Append, v, Feed().fields["tags" := Arr(tags + [v])]);
    assert [Object("feed")] + [Object("tags")] == [Object("feed"), Object("tags")];
  }

  /** `feed.tags[1]` insert: the value goes before the element at 1. */
  lemma InsertIntoList()
    ensures Eval(Example(), [Object("feed"), Object("tags"), List(1)], Insert, Str("tech"), Null)
            == Ok(Outcome(WithFeed(Feed().fields["tags" := Arr([Str("devel"), Str("tech"), Str("example"), Str("python")])]), Null))
  {
    var tags := [Str("devel"), Str("example"), Str("python")];
    var v := Str("tech");
    var r := [Str("devel"), v, Str("example"), Str("python")];
    assert tags[..1] + [v] + tags[1..] == r;
    assert Walk(Arr(tags), [List(1)], Insert, v, Null) == Ok(Outcome(Arr(r), Null));
    InFeed([Object("tags"), List(1)], Insert, v, Feed().fields["tags" := Arr(r)]);
    assert [Object("feed")] + [Object("tags"), List(1)] == [Object("feed"), Object("tags"), List(1)];
  }

  /** `feed.details` becomes an empty mapping. */
  lemma MakeDict()
    ensures Eval(Example(), [Object("feed"), Object("details")], MkDict, Null, Null)
            == Ok(Outcome(WithFeed(Feed().fields["details" := Obj(map[])]), Null))
  {
    InFeed([Object("details")], MkDict, Null, Feed().fields["details" := Obj(map[])]);
    assert [Object("feed")] + [Object("details")] == [Object("feed"), Object("details")];
  }

  /** `feed.users` becomes an empty sequence. */
  lemma MakeList()
    ensures Eval(Example(), [Object("feed"), Object("users")], MkList, Null, Null)
            == Ok(Outcome(WithFeed(Feed().fields["users" := Arr([])]), Null))
  {
    var f := Feed().fields;
    assert f["users" := Arr([])]["users" := Arr([])] == f["users" := Arr([])];
    InFeed([Object("users")], MkList, Null, f["users" := Arr([])]);
    assert [Object("feed")] + [Object("users")] == [Object("feed"), Object("users")];
  }

  /** `jsonxs(d, 'feed.tags[-1]')` from the expression text. */
  lemma GetPathExpression(s: string)
    requires s == "feed.tags[-1]"
    ensures Jsonxs(Example(), s, "get", Null, Null, SampleLetter) == Ok(Outcome(Example(), Str("python")))
  {
    SampleAdmissible();
    var a, b := "feed", "tags";
    var li := StepText(List(-1));
    assert li == "[-1]";
    assert s == a + ("." + (b + li));
    NamesThenGroup(a, b, -1, SampleLetter);
    GetPath();
  }

  /** `jsonxs(d, 'feed.short\.desc')` from the expression text. */
  lemma GetDottedExpression(s: string)
    requires s == "feed.short\\.desc"
    ensures Jsonxs(Example(), s, "get", Null, Null, SampleLetter) == Ok(Outcome(Example(), Str("A feed")))
  {
    SampleAdmissible();
    var a, b, c, key := "feed", "short", "desc", "short.desc";
    assert s == a + ("." + (b + ("\\." + c)));
    assert key == b + ("." + c);
    NameThenDotted(a, b, c, key, SampleLetter);
    GetDottedKey();
  }

  /** `jsonxs(d, 'feed.long\.desc', default='N/A')` from the expression text. */
  lemma GetDefaultExpression(s: string)
    requires s == "feed.long\\.desc"
    ensures Jsonxs(Example(), s, "get", Null, Str("N/A"), SampleLetter) == Ok(Outcome(Example(), Str("N/A")))
  {
    SampleAdmissible();
    var a, b, c, key := "feed", "long", "desc", "long.desc";
    assert s == a + ("." + (b + ("\\." + c)));
    assert key == b + ("." + c);
    NameThenDotted(a, b, c, key, SampleLetter);
    GetDefault();
  }

  /** DEL of `a.b` on a tree without `a` steps over `a` and deletes the
      root's `b`. */
  lemma DelSkipsMissingKey()
    ensures Eval(Obj(map["b" := Int(1)]), [Object("a"), Object("b")], Del, Null, Null)
            == Ok(Outcome(Obj(map[]), Null))
  {
    var m := map["b" := Int(1)];
    assert "a" !in m;
    assert m - {"b"} == map[];
  }
}
