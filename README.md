# Linkage-symbol mangler

A model of the symbol builder in `syntax/symbol.rs` of the cxx bridge
generator. A `Symbol` is a flat linkage name such as
`cxxbridge05$string$new`. It is built by pushing the renderings of naming
segments onto an empty accumulator. Before each rendering a `$` is written,
unless the accumulator is still empty. The segments are text, `usize`
indices, identifiers, already-built symbols, namespace paths and
(namespace, identifier) pairs, plus the `&T` forwarding impl. A new symbol
can also be derived by writing a literal prefix in front of an existing one.

Files:

- `decimal.dfy` (module `Decimal`): how `usize` renders, in decimal.
- `symbol.dfy` (module `Symbols`):
  - the segment datatype;
  - the specification functions (`Appended`, `Pushed`, `PushAll`, `Pieces`, `Flatten`, `Built`);
  - `SepJoin`, a reference definition: renderings joined by single separators;
  - the class `Symbol`, whose `text` field its methods extend in place;
  - the methods `Join` and `FromIdents`, which run the source's loops.
- `laws.dfy` (module `SymbolLaws`): the properties, worked examples, and a
  client of `prefix_with`.

How the model is shaped:

- A panic from `assert!` is returned as a value.
  - `Symbol.Push` and `Symbol.Write` return `ok == false` where the source panics.
  - `Join` and `FromIdents` return `Err(DegenerateSegment)` for the length check of `push`.
  - They return `Err(EmptySymbol)` for the final non-emptiness check.
- The `&dyn Segment` dispatch becomes the closed datatype `Segment`:
  - `Text`, `Index`, `Ident`, `Nested`, `Namespace`, `Pair`;
  - `Ref` stands for the `&T` forwarding impl.
- A nested symbol is carried by its text. That text is all its `write` reads.
  Rust's borrow rules keep a nested symbol from being the accumulator itself.

**Empty renderings.** The length check at syntax/symbol.rs:25-30 compares
against the length before the `$` was pushed. So an empty rendering fails
only while the accumulator is still empty. Pushed later, it is accepted and
leaves `a$` or `a$$b` behind.

- `Pushed` states this exactly.
- `BuiltCharacterization` states it for a whole build: a build succeeds
  iff the first rendering is non-empty.
- `ExampleEmptyMiddleSegment` and `ExampleEmptyLastComponent` show the
  resulting texts.

Determinism holds by construction: every result is a function of the
segments.

## Model

| member | source | states |
|---|---|---|
| `Decimal.Digits` | syntax/symbol.rs:58-62 | An index renders as a non-empty string of decimal digits, with a leading zero only for 0. |
| `Decimal.DigitsRoundTrip` | syntax/symbol.rs:58-62 | Reading the rendered digits back gives the index, so the rendering loses nothing. |
| `Decimal.DigitsInjective` | syntax/symbol.rs:58-62 | Distinct indices render to distinct texts. |
| `Symbols.Pushed` | syntax/symbol.rs:24-31 | One push fails exactly when the accumulator and the rendering are both empty. Otherwise the result is the push's output and is strictly longer than before. A failure is always the degenerate-segment kind. |
| `Symbols.Appended` | syntax/symbol.rs:26-29 | What one push writes: one `$` more than the old text and the rendering together when the old text is non-empty, no separator when it is empty. |
| `Symbols.Pieces` | syntax/symbol.rs:53-96 | What each `Segment` impl pushes. Text, index, identifier and nested symbol push one rendering each; an index's rendering is non-empty and has no `$`. A namespace pushes one rendering per component. A pair pushes its namespace components, in order, and then its identifier. (`&T` is stated by `RefWritesLikeTarget`.) |
| `Symbols.Flatten` | syntax/symbol.rs:100-102 | The renderings the `join` loop pushes, segment after segment: none for no segments, and exactly a segment's own renderings for a single one. |
| `Symbols.Idents` | syntax/symbol.rs:35-36 | The segments `from_idents` writes, one per item, push exactly the items' names, in order. |
| `Symbols.PushAll` | syntax/symbol.rs:76-78 | The push loops (this one, and those at lines 35-37 and 100-102): a run of pushes can fail only through the length check of `push`. |
| `Symbols.PushAllSnoc` | syntax/symbol.rs:76-78 | After a run that left some text, pushing one more rendering is one more `push` on that text. |
| `Symbols.PushAllFailsOnward` | syntax/symbol.rs:30 | Once a push has failed, the run stays failed whatever follows, since the panic ends it. |
| `Symbols.Built` | syntax/symbol.rs:98-105 | A build that succeeds never gives an empty symbol (the final `assert!`). |
| `Symbols.PushAllConcat` | syntax/symbol.rs:100-102 | Pushing two runs one after the other equals pushing their concatenation. A failure in the first run stops everything. |
| `Symbols.FlattenConcat` | syntax/symbol.rs:100-102 | Segments expand left to right: the renderings of a concatenation are the concatenation of the renderings. |
| `Symbols.PushAllStep` | syntax/symbol.rs:76-78 | One loop turn: pushing the next rendering either extends the run so far, or makes the whole run fail. |
| `Symbols.JoinStep` | syntax/symbol.rs:100-102 | One turn of the `join` loop: writing the next segment either extends the build so far, or makes the whole build fail. |
| `Symbols.Symbol.constructor` | syntax/symbol.rs:34 | A symbol wraps exactly the given text. |
| `Symbols.Symbol.Push` | syntax/symbol.rs:24-31 | The new text is the old text, then `$` if the old text was non-empty, then the rendering. The push succeeds exactly when `Pushed` does. |
| `Symbols.Symbol.WriteNamespace` | syntax/symbol.rs:74-80 | The loop pushes every component in order. It succeeds exactly when that run of pushes does, and then the text is the run's result. |
| `Symbols.Symbol.Write` | syntax/symbol.rs:53-96 | Writing any segment is pushing its renderings in order. It succeeds and leaves the text exactly when that run of pushes does. |
| `Symbols.Symbol.PrefixWith` | syntax/symbol.rs:42-46 | Returns a new symbol whose text is the prefix followed directly by this symbol's text. This symbol is not modified. |
| `Symbols.Join` | syntax/symbol.rs:98-105 | Returns a fresh symbol exactly when `Built` succeeds on the segments' renderings, with that text. Otherwise it returns the same fatal kind. |
| `Symbols.FromIdents` | syntax/symbol.rs:33-40 | The same contract as `Join`, over the names of the identifiers. |
| `SymbolLaws.PushAppends` | syntax/symbol.rs:24-29 | A push only appends: the old text stays a prefix, and the rendering ends the new text. |
| `SymbolLaws.PushAllExtends` | syntax/symbol.rs:24-30 | A successful run of pushes keeps the old text as a prefix. The text grows strictly when the run pushed anything. |
| `SymbolLaws.PushAllOntoNonEmpty` | syntax/symbol.rs:25-30 | On a non-empty accumulator no push fails, even an empty one. The renderings arrive joined by single separators after one `$`. |
| `SymbolLaws.BuiltCharacterization` | syntax/symbol.rs:98-105 | A build succeeds iff there is a rendering and the first one is non-empty. No renderings gives the empty-symbol error; an empty first rendering gives the degenerate-segment error. On success the text is `SepJoin` of the renderings. |
| `SymbolLaws.SepJoinEnds` | syntax/symbol.rs:26-29 | The joined text starts with the first rendering and ends with the last. |
| `SymbolLaws.SepJoinSeparatorCount` | syntax/symbol.rs:26-29 | With renderings that have no `$` of their own, the joined text holds exactly one `$` fewer than there are renderings. |
| `SymbolLaws.BuiltSeparators` | syntax/symbol.rs:98-105 | For k ≥ 1 non-empty renderings with no `$`, the build succeeds with exactly k - 1 separators, none leading and none trailing. |
| `SymbolLaws.FromIdentsIsJoin` | syntax/symbol.rs:33-40 | `from_idents` over some names builds what `join` builds over the same names as identifier segments. |
| `SymbolLaws.FlattenSplice` | syntax/symbol.rs:100-102 | A segment in the middle of a list contributes its renderings between those of its neighbours. |
| `SymbolLaws.PairIsNamespaceThenIdent` | syntax/symbol.rs:82-87 | Anywhere in a list, a pair writes what its namespace segment followed by its identifier segment writes. |
| `SymbolLaws.PairLikeIdents` | syntax/symbol.rs:82-87 | A pair on its own builds the same result as its namespace components and its identifier given as separate names. |
| `SymbolLaws.EmptyNamespacePushesNothing` | syntax/symbol.rs:74-80 | An empty namespace contributes nothing, wherever it stands. |
| `SymbolLaws.NamespacePushesComponents` | syntax/symbol.rs:74-80 | On a non-empty accumulator, a namespace pushes each component in order, each after one separator. |
| `SymbolLaws.RefWritesLikeTarget` | syntax/symbol.rs:89-96 | A `&T` segment writes exactly what `T` writes. |
| `SymbolLaws.NestedSymbolSplices` | syntax/symbol.rs:68-72 | A nested symbol is one rendering whose text goes in verbatim. Nesting the result of a successful `join` builds the same result as writing that join's segments in its place. |
| `SymbolLaws.JoinThreeTexts` | syntax/symbol.rs:53-57 | Three text segments build `a$b$c`, or fail with the degenerate-segment error when the first is empty. |
| `SymbolLaws.JoinTextThenNamespace` | syntax/symbol.rs:74-80 | A non-empty text followed by a namespace builds the text, then each component after a `$`. An empty namespace adds nothing. (With an empty text the build fails with the degenerate-segment error, by `BuiltCharacterization`.) |
| `SymbolLaws.JoinQualifiedName` | syntax/symbol.rs:82-87 | For a non-empty first name `a`, `Pair([a, b], c)` and the identifiers `a, b, c` both build `a$b$c`. (With an empty `a` both fail with the degenerate-segment error, by `BuiltCharacterization`.) |
| `SymbolLaws.ExampleFromComment` | syntax/symbol.rs:7-8 | The segments `cxxbridge05`, `string`, `new` build `cxxbridge05$string$new`. |
| `SymbolLaws.ExampleQualifiedName` | syntax/symbol.rs:82-87 | The namespace `org, example` with the identifier `Widget` builds `org$example$Widget`, as a pair and as identifiers. |
| `SymbolLaws.ExampleEmptyMiddleSegment` | syntax/symbol.rs:25-30 | `a`, ``, `b` builds `a$$b`: a later empty rendering is not rejected. |
| `SymbolLaws.ExampleEmptyFirstSegment` | syntax/symbol.rs:25-30 | An empty first rendering fails the length check. |
| `SymbolLaws.ExampleEmptyLastComponent` | syntax/symbol.rs:25-30 | A text followed by a namespace with one empty component builds `a$`. |
| `SymbolLaws.ExampleNothingPushed` | syntax/symbol.rs:103 | No segments, or only an empty namespace, fail the final non-emptiness check. An empty namespace in front of a text is harmless. |
| `SymbolLaws.DerivePrefixed` | syntax/symbol.rs:42-46 | A caller that builds a symbol and derives a prefixed one gets the prefix followed by the base's text. The base keeps its text and stays a separate object. |

## Left out

- `Display for Symbol` and `ToTokens for Symbol` (syntax/symbol.rs:11-21) hand on the wrapped string: `Display` writes it verbatim, and `ToTokens` emits it as a string literal. The model's `text` field stands for that string, and the token machinery of `proc_macro2`/`quote` is not modelled.
- The `write_fmt(...).unwrap()` of syntax/symbol.rs:29 is modelled as plain appending. Formatting into a `String` cannot fail, so the `unwrap` never panics.
- `Ident` is modelled as its rendered name, a `string`.
- The length check at syntax/symbol.rs:25,30 compares `len()`, which counts UTF-8 bytes; the model compares `|text|`, which counts characters. An append makes a string strictly longer in bytes exactly when it does so in characters, so the check's outcome is the same.
- `Namespace` is modelled as a sequence of component names, and `Pair` as a namespace with one identifier. Their definitions are not part of this model.
- `usize` is modelled as the integers below 2^64, rendered in decimal. The `Display` machinery of the standard library is not modelled.
- A panic is modelled as a returned error value, not as unwinding.
- Symbols.Symbol.Write: says nothing about the text after a failed push. At that point the source has panicked, so the state cannot be observed.
- Symbols.Symbol.WriteNamespace: says nothing about the text after a failed push, for the same reason.
- Segments whose rendering contains `$` are neither rejected nor escaped, as in the source. `SepJoinSeparatorCount` and `BuiltSeparators` therefore assume renderings without `$`.
- There is no concurrency: each build has its own accumulator.
