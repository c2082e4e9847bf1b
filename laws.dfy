/** Properties of the symbol mangler: what a push does, what a whole build
    produces, and how the compound segments expand. */
module SymbolLaws {
  import opened Decimal
  import opened Symbols

  /** One push only appends: the old text stays as the prefix and the
      rendering ends the new text. */
  lemma PushAppends(acc: string, piece: string)
    ensures acc <= Appended(acc, piece)
    ensures |piece| <= |Appended(acc, piece)|
    ensures Appended(acc, piece)[|Appended(acc, piece)| - |piece|..] == piece
  {
    if acc != [] {
      assert Appended(acc, piece) == (acc + [Separator]) + piece;
    }
  }

  /** A run of pushes only appends: what was already written stays as the
      prefix, and every successful push makes the text strictly longer. */
  lemma {:induction false} PushAllExtends(acc: string, ps: seq<string>)
    ensures PushAll(acc, ps).Ok? ==> acc <= PushAll(acc, ps).value
    ensures PushAll(acc, ps).Ok? && ps != [] ==> |acc| < |PushAll(acc, ps).value|
    decreases |ps|
  {
    if ps != [] {
      match Pushed(acc, ps[0])
      case Err(_) =>
      case Ok(next) =>
        PushAppends(acc, ps[0]);
        PushAllExtends(next, ps[1..]);
    }
  }

  /** On a non-empty accumulator no push can fail (the separator alone
      makes it grow), and the renderings arrive joined by single
      separators, empty renderings included. */
  lemma {:induction false} PushAllOntoNonEmpty(acc: string, ps: seq<string>)
    requires acc != []
    ensures PushAll(acc, ps) == Ok(if ps == [] then acc else acc + [Separator] + SepJoin(ps))
    decreases |ps|
  {
    if ps != [] {
      var next := acc + [Separator] + ps[0];
      assert Pushed(acc, ps[0]) == Ok(next);
      PushAllOntoNonEmpty(next, ps[1..]);
      if |ps| > 1 {
        assert next + [Separator] + SepJoin(ps[1..])
            == acc + [Separator] + (ps[0] + [Separator] + SepJoin(ps[1..]));
      }
    }
  }

  /** What `join` and `from_idents` produce from the renderings they push:
      an empty list aborts on the final non-emptiness check, an empty FIRST
      rendering aborts on the length check of its push, and otherwise the
      result is the renderings joined by single separators. Only the first
      rendering is required to be non-empty: a later empty one is accepted
      and yields `a$` or `a$$b`. */
  lemma BuiltCharacterization(ps: seq<string>)
    ensures Built(ps).Ok? <==> ps != [] && ps[0] != []
    ensures ps == [] ==> Built(ps) == Err(EmptySymbol)
    ensures ps != [] && ps[0] == [] ==> Built(ps) == Err(DegenerateSegment)
    ensures ps != [] && ps[0] != [] ==> Built(ps) == Ok(SepJoin(ps))
  {
    if ps != [] && ps[0] != [] {
      assert Pushed([], ps[0]) == Ok(ps[0]);
      PushAllOntoNonEmpty(ps[0], ps[1..]);
    }
  }

  /** `SepJoin` starts with the first rendering and ends with the last. */
  lemma {:induction false} SepJoinEnds(ps: seq<string>)
    requires ps != []
    ensures ps[0] <= SepJoin(ps)
    ensures |ps[|ps| - 1]| <= |SepJoin(ps)|
    ensures SepJoin(ps)[|SepJoin(ps)| - |ps[|ps| - 1]|..] == ps[|ps| - 1]
    decreases |ps|
  {
    if |ps| > 1 {
      SepJoinEnds(ps[1..]);
      var tail := SepJoin(ps[1..]);
      assert SepJoin(ps) == ps[0] + [Separator] + tail;
      assert SepJoin(ps)[|SepJoin(ps)| - |tail|..] == tail;
    }
  }

  /** With renderings that have no `$` of their own, the joined text has
      exactly one separator fewer than there are renderings. */
  lemma {:induction false} SepJoinSeparatorCount(ps: seq<string>)
    requires ps != []
    requires forall i :: 0 <= i < |ps| ==> Separator !in ps[i]
    ensures multiset(SepJoin(ps))[Separator] == |ps| - 1
    decreases |ps|
  {
    assert Separator !in multiset(ps[0]);
    if |ps| > 1 {
      SepJoinSeparatorCount(ps[1..]);
      assert multiset(SepJoin(ps))
          == multiset(ps[0]) + multiset([Separator]) + multiset(SepJoin(ps[1..]));
    }
  }

  /** For k non-empty renderings without `$`, a build succeeds and puts
      exactly k - 1 separators in, none leading and none trailing. */
  lemma BuiltSeparators(ps: seq<string>)
    requires ps != []
    requires forall i :: 0 <= i < |ps| ==> ps[i] != [] && Separator !in ps[i]
    ensures Built(ps).Ok? && Built(ps).value == SepJoin(ps)
    ensures multiset(Built(ps).value)[Separator] == |ps| - 1
    ensures Built(ps).value[0] != Separator
    ensures Built(ps).value[|Built(ps).value| - 1] != Separator
  {
    BuiltCharacterization(ps);
    SepJoinSeparatorCount(ps);
    SepJoinEnds(ps);
    var s, first, last := SepJoin(ps), ps[0], ps[|ps| - 1];
    assert s[0] == first[0];
    assert s[|s| - 1] == s[|s| - |last|..][|last| - 1] == last[|last| - 1];
  }

  /** `from_idents` over some identifiers is `join` over those identifiers
      as `Ident` segments. */
  lemma FromIdentsIsJoin(ids: seq<string>)
    ensures Built(Flatten(Idents(ids))) == Built(ids)
  {
  }

  /** The renderings of a run of segments are the renderings of its parts,
      in order. */
  lemma FlattenSplice(pre: seq<Segment>, seg: Segment, post: seq<Segment>)
    ensures Flatten(pre + [seg] + post) == Flatten(pre) + Pieces(seg) + Flatten(post)
  {
    FlattenConcat(pre + [seg], post);
    FlattenConcat(pre, [seg]);
  }

  /** A pair writes its namespace and then its identifier, wherever it
      stands among other segments. */
  lemma PairIsNamespaceThenIdent(pre: seq<Segment>, ns: seq<string>, cxx: string, post: seq<Segment>)
    ensures Flatten(pre + [Pair(ns, cxx)] + post) == Flatten(pre + [Namespace(ns), Ident(cxx)] + post)
  {
    var both := [Namespace(ns), Ident(cxx)];
    FlattenSplice(pre, Pair(ns, cxx), post);
    FlattenConcat(pre + both, post);
    FlattenConcat(pre, both);
    FlattenOfTwo(Namespace(ns), Ident(cxx));
  }

  /** A pair on its own builds the same symbol as its namespace components
      and its identifier given as separate identifiers. */
  lemma PairLikeIdents(ns: seq<string>, cxx: string)
    ensures Built(Flatten([Pair(ns, cxx)])) == Built(ns + [cxx])
  {
  }

  /** An empty namespace pushes nothing. */
  lemma EmptyNamespacePushesNothing(pre: seq<Segment>, post: seq<Segment>)
    ensures Flatten(pre + [Namespace([])] + post) == Flatten(pre + post)
  {
    FlattenSplice(pre, Namespace([]), post);
    FlattenConcat(pre, post);
  }

  /** A namespace pushes each of its components, in order, as its own
      rendering. */
  lemma NamespacePushesComponents(acc: string, path: seq<string>)
    requires acc != []
    ensures PushAll(acc, Pieces(Namespace(path))) ==
            Ok(if path == [] then acc else acc + [Separator] + SepJoin(path))
  {
    PushAllOntoNonEmpty(acc, path);
  }

  /** A `&T` segment writes exactly what `T` writes. */
  lemma RefWritesLikeTarget(pre: seq<Segment>, target: Segment, post: seq<Segment>)
    ensures Flatten(pre + [Ref(target)] + post) == Flatten(pre + [target] + post)
  {
    FlattenSplice(pre, Ref(target), post);
    FlattenSplice(pre, target, post);
  }

  lemma {:induction false} SepJoinConcat(x: seq<string>, y: seq<string>)
    requires x != [] && y != []
    ensures SepJoin(x + y) == SepJoin(x) + [Separator] + SepJoin(y)
    decreases |x|
  {
    if |x| == 1 {
      assert (x + y)[1..] == y;
    } else {
      assert (x + y)[1..] == x[1..] + y;
      SepJoinConcat(x[1..], y);
    }
  }

  lemma SepJoinSpliceFront(f: seq<string>, q: seq<string>)
    requires f != []
    ensures SepJoin([SepJoin(f)] + q) == SepJoin(f + q)
  {
    var t := SepJoin(f);
    if q == [] {
      assert [t] + q == [t] && f + q == f;
    } else {
      SepJoinConcat(f, q);
      SepJoinConcat([t], q);
    }
  }

  /** Replacing a run of renderings by their joined text does not change
      the joined whole. */
  lemma SepJoinSplice(p: seq<string>, f: seq<string>, q: seq<string>)
    requires f != []
    ensures SepJoin(p + [SepJoin(f)] + q) == SepJoin(p + f + q)
  {
    var t := SepJoin(f);
    var tq, fq := [t] + q, f + q;
    SepJoinSpliceFront(f, q);
    assert p + [t] + q == p + tq;
    assert p + f + q == p + fq;
    if p == [] {
      assert p + tq == tq && p + fq == fq;
    } else {
      SepJoinConcat(p, tq);
      SepJoinConcat(p, fq);
    }
  }

  /** A nested symbol is one rendering whose text goes in verbatim: nesting
      the result of a successful `join` is the same as writing that
      `join`'s segments in its place. */
  lemma NestedSymbolSplices(pre: seq<Segment>, inner: seq<Segment>, post: seq<Segment>, t: string)
    requires Built(Flatten(inner)) == Ok(t)
    ensures Built(Flatten(pre + [Nested(t)] + post)) == Built(Flatten(pre + inner + post))
  {
    var p, f, q := Flatten(pre), Flatten(inner), Flatten(post);
    BuiltCharacterization(f);
    assert t == SepJoin(f);
    FlattenSplice(pre, Nested(t), post);
    FlattenConcat(pre + inner, post);
    FlattenConcat(pre, inner);
    var a, b := p + [t] + q, p + f + q;
    assert a[0] != [] <==> b[0] != [] by {
      if p == [] {
        assert a[0] == t && b[0] == f[0];
      } else {
        assert a[0] == p[0] && b[0] == p[0];
      }
    }
    SepJoinSplice(p, f, q);
    BuiltCharacterization(a);
    BuiltCharacterization(b);
  }

  lemma SepJoinOfThree(a: string, b: string, c: string)
    ensures SepJoin([a, b, c]) == a + [Separator] + b + [Separator] + c
  {
    assert [a, b, c][1..] == [b, c];
    assert [b, c][1..] == [c];
    assert SepJoin([b, c]) == b + [Separator] + c;
  }

  lemma FlattenOfThree(x: Segment, y: Segment, z: Segment)
    ensures Flatten([x, y, z]) == Pieces(x) + Pieces(y) + Pieces(z)
  {
    assert [x, y, z][1..] == [y, z];
    FlattenOfTwo(y, z);
  }

  lemma FlattenOfTwo(x: Segment, y: Segment)
    ensures Flatten([x, y]) == Pieces(x) + Pieces(y)
  {
    assert [x, y][1..] == [y];
  }

  /** Three text segments, stated for any texts. */
  lemma JoinThreeTexts(a: string, b: string, c: string)
    ensures Built(Flatten([Text(a), Text(b), Text(c)])) ==
            if a == [] then Err(DegenerateSegment) else Ok(a + [Separator] + b + [Separator] + c)
  {
    FlattenOfThree(Text(a), Text(b), Text(c));
    assert [a] + [b] + [c] == [a, b, c];
    BuiltCharacterization([a, b, c]);
    SepJoinOfThree(a, b, c);
  }

  /** A text segment followed by a namespace, stated for any of them. */
  lemma JoinTextThenNamespace(a: string, path: seq<string>)
    requires a != []
    ensures Built(Flatten([Text(a), Namespace(path)])) ==
            Ok(if path == [] then a else a + [Separator] + SepJoin(path))
  {
    FlattenOfTwo(Text(a), Namespace(path));
    assert Pushed([], a) == Ok(a);
    PushAllOntoNonEmpty(a, path);
  }

  /** A qualified name with a two-component namespace, written as a pair
      and as three identifiers, stated for any names. */
  lemma JoinQualifiedName(a: string, b: string, c: string)
    requires a != []
    ensures Built(Flatten([Pair([a, b], c)])) == Ok(a + [Separator] + b + [Separator] + c)
    ensures Built(Flatten(Idents([a, b, c]))) == Ok(a + [Separator] + b + [Separator] + c)
  {
    PairLikeIdents([a, b], c);
    assert [a, b] + [c] == [a, b, c];
    FromIdentsIsJoin([a, b, c]);
    BuiltCharacterization([a, b, c]);
    SepJoinOfThree(a, b, c);
  }

  /** The example symbol of the source's own comment. */
  lemma ExampleFromComment()
    ensures Built(Flatten([Text("cxxbridge05"), Text("string"), Text("new")]))
         == Ok("cxxbridge05$string$new")
  {
    JoinThreeTexts("cxxbridge05", "string", "new");
    assert "cxxbridge05" + [Separator] + "string" + [Separator] + "new" == "cxxbridge05$string$new";
  }

  /** A qualified name as a pair, and as separate identifiers. */
  lemma ExampleQualifiedName()
    ensures Built(Flatten([Pair(["org", "example"], "Widget")])) == Ok("org$example$Widget")
    ensures Built(Flatten(Idents(["org", "example", "Widget"]))) == Ok("org$example$Widget")
  {
    var name := "org" + [Separator] + "example" + [Separator] + "Widget";
    assert name == "org$example$Widget";
    JoinQualifiedName("org", "example", "Widget");
  }

  /** An empty rendering after the first one passes the length check and
      leaves a doubled separator. */
  lemma ExampleEmptyMiddleSegment()
    ensures Built(Flatten([Text("a"), Text(""), Text("b")])) == Ok("a$$b")
  {
    JoinThreeTexts("a", "", "b");
    assert "a" + [Separator] + "" + [Separator] + "b" == "a$$b";
  }

  /** An empty rendering pushed first fails the length check. */
  lemma ExampleEmptyFirstSegment()
    ensures Built(Flatten([Text(""), Text("b"), Text("c")])) == Err(DegenerateSegment)
  {
    JoinThreeTexts("", "b", "c");
  }

  /** A namespace with one empty component, pushed last, leaves a trailing
      separator. */
  lemma ExampleEmptyLastComponent()
    ensures Built(Flatten([Text("a"), Namespace([""])])) == Ok("a$")
  {
    JoinTextThenNamespace("a", [""]);
    assert "a" + [Separator] + "" == "a$";
  }

  /** Nothing to push reaches the final non-emptiness check; an empty
      namespace in front of other segments is harmless. */
  lemma ExampleNothingPushed()
    ensures Built(Flatten([])) == Err(EmptySymbol)
    ensures Built(Flatten([Namespace([])])) == Err(EmptySymbol)
    ensures Built(Flatten([Namespace([]), Text("b")])) == Ok("b")
  {
    BuiltCharacterization([]);
    FlattenOfTwo(Namespace([]), Text("b"));
    assert [] + ["b"] == ["b"];
    BuiltCharacterization(["b"]);
  }

  /** A caller deriving a related symbol from a built one, as the comment
      on `prefix_with` describes (a vector of a type from the type's own
      symbol): the base keeps its text and stays a separate object. */
  method DerivePrefixed(segs: seq<Segment>, prefix: string) returns (base: Symbol, derived: Symbol)
    requires Built(Flatten(segs)).Ok?
    ensures base.text == Built(Flatten(segs)).value
    ensures derived.text == prefix + base.text && derived != base
  {
    var r := Join(segs);
    base := r.value;
    derived := base.PrefixWith(prefix);
  }
}
