/** The linkage-symbol mangler of syntax/symbol.rs: a `Symbol` is a flat
    string built by pushing naming segments onto an accumulator, with a
    `$` between consecutive pushes, e.g. `cxxbridge05$string$new`. */
module Symbols {
  import opened Decimal

  /** The separator written between two pushed renderings. */
  const Separator: char := '$'

  /** Why building a symbol aborts: both are `assert!` failures (a panic)
      in the source, returned here as values. */
  datatype Fatal =
    | DegenerateSegment  // a push did not make the accumulator longer
    | EmptySymbol        // the finished symbol is empty

  datatype Result<T> = Ok(value: T) | Err(fatal: Fatal)

  /** The values that implement `Segment`, with `&T` forwarding as `Ref`.
      A nested `Symbol` is carried by its text, which is all its `write`
      reads of it. */
  datatype Segment =
    | Text(str: string)
    | Index(index: Usize)
    | Ident(name: string)
    | Nested(symbol: string)
    | Namespace(path: seq<string>)
    | Pair(namespace: seq<string>, cxx: string)
    | Ref(target: Segment)

  /** The accumulator after one push, before its length check: a separator
      only when the accumulator is non-empty, then the rendering. */
  function Appended(acc: string, piece: string): (r: string)
    ensures |r| == |acc| + |piece| + (if acc == [] then 0 else 1)
  {
    if acc == [] then piece else acc + [Separator] + piece
  }

  /** One push including its `assert!`. It fails exactly when both the
      accumulator and the rendering are empty: on a non-empty accumulator
      the separator alone makes it longer. */
  function Pushed(acc: string, piece: string): (r: Result<string>)
    ensures r.Ok? <==> acc != [] || piece != []
    ensures r.Ok? ==> r.value == Appended(acc, piece) && |acc| < |r.value|
    ensures r.Err? ==> r.fatal == DegenerateSegment
  {
    var next := Appended(acc, piece);
    if |next| > |acc| then Ok(next) else Err(DegenerateSegment)
  }

  /** Pushes the renderings in order, stopping at the first failed push. */
  function PushAll(acc: string, pieces: seq<string>): (r: Result<string>)
    ensures r.Err? ==> r.fatal == DegenerateSegment
    decreases |pieces|
  {
    if pieces == [] then Ok(acc)
    else
      match Pushed(acc, pieces[0])
      case Err(f) => Err(f)
      case Ok(next) => PushAll(next, pieces[1..])
  }

  /** The renderings a segment's `write` pushes, in order: one for each
      plain segment, one per component for a namespace, and the namespace's
      components followed by the identifier for a pair. */
  function Pieces(seg: Segment): (r: seq<string>)
    ensures (seg.Text? || seg.Index? || seg.Ident? || seg.Nested?) ==> |r| == 1
    ensures seg.Index? ==> r[0] != [] && Separator !in r[0]
    ensures seg.Namespace? ==> |r| == |seg.path|
    ensures seg.Pair? ==> |r| == |seg.namespace| + 1 && r[|seg.namespace|] == seg.cxx
    ensures seg.Pair? ==> r[..|seg.namespace|] == seg.namespace
  {
    match seg
    case Text(s) => [s]
    case Index(n) => [Digits(n)]
    case Ident(name) => [name]
    case Nested(t) => [t]
    case Namespace(path) => path
    case Pair(ns, cxx) => ns + [cxx]
    case Ref(target) => Pieces(target)
  }

  /** The renderings a list of segments pushes, left to right: none for
      no segment, exactly the segment's own for a single one. */
  function Flatten(segs: seq<Segment>): (r: seq<string>)
    ensures segs == [] ==> r == []
    ensures |segs| == 1 ==> r == Pieces(segs[0])
  {
    if segs == [] then [] else Pieces(segs[0]) + Flatten(segs[1..])
  }

  /** The identifier segments `from_idents` writes, one per item: they
      push exactly the names, in order. */
  function Idents(ids: seq<string>): (r: seq<Segment>)
    ensures |r| == |ids| && Flatten(r) == ids
    decreases |ids|
  {
    if ids == [] then []
    else
      var rest := Idents(ids[1..]);
      assert ([Ident(ids[0])] + rest)[1..] == rest;
      [Ident(ids[0])] + rest
  }

  /** A fresh accumulator receiving every rendering, then the final
      non-emptiness `assert!`. */
  function Built(pieces: seq<string>): (r: Result<string>)
    ensures r.Ok? ==> r.value != []
  {
    match PushAll([], pieces)
    case Err(f) => Err(f)
    case Ok(t) => if t == [] then Err(EmptySymbol) else Ok(t)
  }

  /** Reference definition: the renderings joined by single separators. */
  function SepJoin(ps: seq<string>): string
    decreases |ps|
  {
    if |ps| == 0 then []
    else if |ps| == 1 then ps[0]
    else ps[0] + [Separator] + SepJoin(ps[1..])
  }

  /** Pushing two runs of renderings is pushing the first one, then the
      second one onto what the first left. */
  lemma {:induction false} PushAllConcat(acc: string, a: seq<string>, b: seq<string>)
    ensures PushAll(acc, a + b) ==
            match PushAll(acc, a)
            case Err(f) => Err(f)
            case Ok(t) => PushAll(t, b)
    decreases |a|
  {
    if a == [] {
      assert a + b == b;
    } else {
      assert (a + b)[0] == a[0];
      assert (a + b)[1..] == a[1..] + b;
      match Pushed(acc, a[0])
      case Err(_) =>
      case Ok(next) => PushAllConcat(next, a[1..], b);
    }
  }

  lemma {:induction false} FlattenConcat(x: seq<Segment>, y: seq<Segment>)
    ensures Flatten(x + y) == Flatten(x) + Flatten(y)
    decreases |x|
  {
    if x == [] {
      assert x + y == y;
    } else {
      assert (x + y)[0] == x[0];
      assert (x + y)[1..] == x[1..] + y;
      FlattenConcat(x[1..], y);
    }
  }

  /** One turn of the loop in `join`: after the first `i` segments left
      `acc`, writing segment `i` either extends the run or makes the whole
      build fail. */
  lemma JoinStep(segs: seq<Segment>, i: nat, acc: string)
    requires i < |segs| && PushAll([], Flatten(segs[..i])) == Ok(acc)
    ensures PushAll([], Flatten(segs[..i + 1])) == PushAll(acc, Pieces(segs[i]))
    ensures PushAll(acc, Pieces(segs[i])).Err? ==> PushAll([], Flatten(segs)).Err?
  {
    var done, rest := Flatten(segs[..i]), Flatten(segs[i + 1..]);
    assert segs[..i + 1] == segs[..i] + [segs[i]];
    FlattenConcat(segs[..i], [segs[i]]);
    PushAllConcat([], done, Pieces(segs[i]));
    assert segs == segs[..i + 1] + segs[i + 1..];
    FlattenConcat(segs[..i + 1], segs[i + 1..]);
    PushAllConcat([], done + Pieces(segs[i]), rest);
  }

  lemma PushAllOne(acc: string, piece: string)
    ensures PushAll(acc, [piece]) == Pushed(acc, piece)
  {
    assert [piece][1..] == [];
  }

  /** Pushing one more rendering after a run that left `acc`. */
  lemma PushAllSnoc(start: string, done: seq<string>, piece: string, acc: string)
    requires PushAll(start, done) == Ok(acc)
    ensures PushAll(start, done + [piece]) == Pushed(acc, piece)
  {
    PushAllOne(acc, piece);
    PushAllConcat(start, done, [piece]);
  }

  /** A run that fails stays failed whatever is pushed after it. */
  lemma PushAllFailsOnward(start: string, a: seq<string>, b: seq<string>)
    requires PushAll(start, a).Err?
    ensures PushAll(start, a + b).Err?
  {
    PushAllConcat(start, a, b);
  }

  /** One turn of a loop pushing `ps` in order (`Namespace::write`,
      `from_idents`): after `ps[..i]` left `acc`, pushing `ps[i]` either
      extends the run or makes pushing the whole of `ps` fail. */
  lemma PushAllStep(start: string, ps: seq<string>, i: nat, acc: string)
    requires i < |ps| && PushAll(start, ps[..i]) == Ok(acc)
    ensures Pushed(acc, ps[i]).Ok? ==> PushAll(start, ps[..i + 1]) == Pushed(acc, ps[i])
    ensures Pushed(acc, ps[i]).Err? ==> PushAll(start, ps).Err?
  {
    var next, later := ps[..i + 1], ps[i + 1..];
    assert ps == next + later;
    assert next == ps[..i] + [ps[i]];
    PushAllSnoc(start, ps[..i], ps[i], acc);
    if Pushed(acc, ps[i]).Err? {
      PushAllFailsOnward(start, next, later);
    }
  }

  /** The string wrapper whose text `push` extends in place. */
  class Symbol {
    var text: string

    constructor (text: string)
      ensures this.text == text
    {
      this.text := text;
    }

    /** `push`: a separator unless still empty, then the rendering, then
        the check that the text grew (`ok` is false where it panics). */
    method Push(piece: string) returns (ok: bool)
      modifies this
      ensures text == Appended(old(text), piece)
      ensures ok <==> Pushed(old(text), piece).Ok?
    {
      var lenBefore := |text|;
      if text != [] {
        text := text + [Separator];
      }
      text := text + piece;
      ok := |text| > lenBefore;
    }

    /** `Segment::write` for a namespace: each component pushed in order. */
    method WriteNamespace(path: seq<string>) returns (ok: bool)
      modifies this
      ensures ok <==> PushAll(old(text), path).Ok?
      ensures ok ==> text == PushAll(old(text), path).value
    {
      ghost var start := text;
      var i := 0;
      while i < |path|
        invariant 0 <= i <= |path|
        invariant PushAll(start, path[..i]) == Ok(text)
      {
        ghost var before := text;
        ok := Push(path[i]);
        PushAllStep(start, path, i, before);
        if !ok {
          return;
        }
        i := i + 1;
      }
      ok := true;
      assert path[..|path|] == path;
    }

    /** `Segment::write`, dispatched on the kind of segment. */
    method Write(seg: Segment) returns (ok: bool)
      modifies this
      ensures ok <==> PushAll(old(text), Pieces(seg)).Ok?
      ensures ok ==> text == PushAll(old(text), Pieces(seg)).value
      decreases seg
    {
      match seg
      case Text(s) =>
        ok := Push(s);
      case Index(n) =>
        ok := Push(Digits(n));
      case Ident(name) =>
        ok := Push(name);
      case Nested(t) =>
        ok := Push(t);
      case Namespace(path) =>
        ok := WriteNamespace(path);
      case Pair(ns, cxx) =>
        ghost var start := text;
        PushAllConcat(start, ns, [cxx]);
        ok := WriteNamespace(ns);
        if ok {
          ok := Push(cxx);
        }
      case Ref(target) =>
        ok := Write(target);
    }

    /** `prefix_with`: a new symbol whose text is `prefix` immediately
        followed by this symbol's text; this symbol is not changed. */
    method PrefixWith(prefix: string) returns (r: Symbol)
      ensures fresh(r) && r.text == prefix + text
    {
      r := new Symbol(prefix + text);
    }
  }

  /** `join`: every segment written into a fresh symbol, then the check
      that the result is non-empty. */
  method Join(segs: seq<Segment>) returns (r: Result<Symbol>)
    ensures r.Ok? <==> Built(Flatten(segs)).Ok?
    ensures r.Ok? ==> fresh(r.value) && r.value.text == Built(Flatten(segs)).value
    ensures r.Err? ==> r.fatal == Built(Flatten(segs)).fatal
  {
    var symbol := new Symbol([]);
    var i := 0;
    while i < |segs|
      invariant 0 <= i <= |segs|
      invariant PushAll([], Flatten(segs[..i])) == Ok(symbol.text)
    {
      ghost var before := symbol.text;
      var ok := symbol.Write(segs[i]);
      JoinStep(segs, i, before);
      if !ok {
        return Err(DegenerateSegment);
      }
      i := i + 1;
    }
    assert segs[..|segs|] == segs;
    if symbol.text == [] {
      return Err(EmptySymbol);
    }
    return Ok(symbol);
  }

  /** `from_idents`: each identifier written into a fresh symbol, then the
      check that the result is non-empty. */
  method FromIdents(ids: seq<string>) returns (r: Result<Symbol>)
    ensures r.Ok? <==> Built(ids).Ok?
    ensures r.Ok? ==> fresh(r.value) && r.value.text == Built(ids).value
    ensures r.Err? ==> r.fatal == Built(ids).fatal
  {
    var symbol := new Symbol([]);
    var i := 0;
    while i < |ids|
      invariant 0 <= i <= |ids|
      invariant PushAll([], ids[..i]) == Ok(symbol.text)
    {
      ghost var before := symbol.text;
      var ok := symbol.Write(Ident(ids[i]));
      PushAllOne(before, ids[i]);
      PushAllStep([], ids, i, before);
      if !ok {
        return Err(DegenerateSegment);
      }
      i := i + 1;
    }
    assert ids[..|ids|] == ids;
    if symbol.text == [] {
      return Err(EmptySymbol);
    }
    return Ok(symbol);
  }
}
