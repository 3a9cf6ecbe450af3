/** The slice of Rust's item syntax that the `tusks` attribute macro looks at:
    attributes (with their paths), function items, module items with or
    without an inline body, and every other kind of item as opaque text. */
module Syntax {
  import opened Results

  /** Arguments that may follow a path segment: none, `<...>` or `(...)`. */
  datatype PathArguments = NoArguments | AngleBracketed(text: string) | Parenthesized(text: string)

  datatype PathSegment = PathSegment(ident: string, arguments: PathArguments)

  /** A path such as `defaults`, `a::defaults` or `::defaults`. */
  datatype Path = Path(leadingColon: bool, segments: seq<PathSegment>)

  /** `#[...]` is outer, `#![...]` is inner. */
  datatype AttrStyle = Outer | Inner

  /** What follows the path inside the brackets: nothing (`#[p]`), a
      delimited token list (`#[p(...)]`) or a value (`#[p = v]`). */
  datatype AttrArgs = Word | List(tokens: string) | NameValue(value: string)

  datatype Attribute = Attribute(style: AttrStyle, path: Path, args: AttrArgs)

  /** `fn ident(...) block`, with its attributes. */
  datatype ItemFn = ItemFn(attrs: seq<Attribute>, ident: string, signature: string, block: string)

  /** A module's body: `mod ident { items }` is `Inline(items)`, while
      `mod ident;` (whose items live in another file) is `External`. */
  datatype ModContent = External | Inline(items: seq<Item>)

  datatype ItemMod = ItemMod(attrs: seq<Attribute>, ident: string, content: ModContent)

  /** An item of a module. Structs, impls, uses and the rest are `Other`: the
      macro never looks inside them. */
  datatype Item =
    | Fn(f: ItemFn)
    | Mod(m: ItemMod)
    | Other(kind: string, attrs: seq<Attribute>, tokens: string)

  /** The path's identifier when the path is one bare identifier: no leading
      `::`, exactly one segment, and no arguments on that segment. */
  function GetIdent(p: Path): Option<string>
  {
    if !p.leadingColon && |p.segments| == 1 && p.segments[0].arguments == NoArguments
    then Some(p.segments[0].ident)
    else None
  }

  predicate IsIdent(p: Path, ident: string)
  {
    GetIdent(p) == Some(ident)
  }

  /** A path is the identifier `ident` exactly when it is the one-segment,
      argument-free, unanchored path spelling `ident`. */
  lemma IsIdentIff(p: Path, ident: string)
    ensures IsIdent(p, ident) <==> p == Path(false, [PathSegment(ident, NoArguments)])
  {
  }
}
