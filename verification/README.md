# tusks `defaults`-attribute cleanup, in Dafny

The `tusks` attribute macro is placed on a Rust module. It turns the module's
functions and submodules into a command-line tool. First it extracts a command
tree from the module. Then it rewrites the module's item list, in two steps:

1. It removes every `#[defaults(...)]` attribute from every function item. The
   walk descends into every submodule that has an inline body. The extraction
   step has already read these attributes, and they would not compile if left
   in place.
2. It appends one generated item, the internal module built from the tree.

If extraction fails, the macro expands to the extraction error's compile error.

This project models that rewrite over an abstract Rust syntax tree:

- `results.dfy`, module `Results`: `Option` and `Result`.
- `syntax.dfy`, module `Syntax`: attributes and their paths, function items,
  modules whose body is inline (`mod m { ... }`) or external (`mod m;`), and
  opaque other items. It also defines `syn`'s "this path is the identifier X"
  test.
- `attributes.dfy`, module `DefaultsAttrs`: the attribute filter
  (`remove_defaults_attrs`). It has an independent index/count specification,
  `Retains`, proved equivalent to the filter in both directions.
- `cleanup.dfy`, module `DefaultsCleanup`: the recursive item walk
  (`cleanup_defaults_attributes`). It is specified by the relation
  `ItemCleaned`, and the walk is proved to be the only function satisfying it.
  The module also proves that the fixpoints of the walk are exactly the clean
  trees, and that the walk is idempotent.
- `macro.dfy`, module `TusksMacro`: the content edit done by `tusks`. Tree
  extraction and internal-module generation are function parameters.

A path is the identifier `defaults` only when it has no leading `::`, has
exactly one segment, and that segment has no generic or parenthesized
arguments. This follows `syn`'s `Path::get_ident`, which `is_ident` uses. So
`#[a::defaults]` and `#[::defaults]` are kept. The
attribute's own arguments do not matter: `#[defaults]`, `#[defaults(x = 1)]`
and `#[defaults = "x"]` are all removed.

## Model

| member | source | states |
|---|---|---|
| Syntax.IsIdentIff | src/lib.rs:77 | a path counts as the identifier `ident` exactly when it is the unanchored one-segment path `ident` with no arguments |
| DefaultsAttrs.RemoveDefaultsAttrs | src/lib.rs:74-78 | no `defaults` attribute remains; an attribute is in the result iff it was in the input and is not a `defaults` attribute; the list never grows |
| DefaultsAttrs.RemoveDefaultsAttrsRetains | src/lib.rs:75-78 | the filter is a `retain`: the result has one entry per non-`defaults` attribute, and each survivor sits after exactly the survivors that preceded it, so the original relative order is kept |
| DefaultsAttrs.RetainsDetermines | src/lib.rs:75-78 | any list meeting the retain specification equals the filter's result, so the specification and the filter agree in both directions |
| DefaultsAttrs.RemoveDefaultsAttrsFixpoint | src/lib.rs:75-78 | filtering leaves a list unchanged iff it holds no `defaults` attribute, so filtering is idempotent |
| DefaultsAttrs.OnlyBareDefaultsRemoved | src/lib.rs:77 | a single attribute is removed iff its path is exactly the bare `defaults`; otherwise it is kept unchanged |
| DefaultsCleanup.CleanupItem | src/lib.rs:56-70 | a function keeps everything but its attributes, which are the retained non-`defaults` ones; a module keeps its own attributes and name, and its inline body is cleaned item by item; `mod m;` and other items are unchanged; the result is clean at every depth |
| DefaultsCleanup.CleanupItems | src/lib.rs:55-71 | the item list keeps its length and item order, each item is cleaned as above, and no function at any depth of inline modules keeps a `defaults` attribute |
| DefaultsCleanup.ItemCleanedIsCleanup | src/lib.rs:56-70 | the per-item cleaning relation has exactly one solution, the walk's result |
| DefaultsCleanup.ItemsCleanedIsCleanup | src/lib.rs:55-71 | any item list related to the input by the cleaning relation is the walk's result |
| DefaultsCleanup.CleanupItemFixpoint | src/lib.rs:56-70 | cleaning leaves an item unchanged iff it is already clean |
| DefaultsCleanup.CleanupItemsFixpoint | src/lib.rs:55-71 | cleaning leaves an item list unchanged iff no function in it, at any depth of inline modules, has a `defaults` attribute |
| DefaultsCleanup.CleanupIdempotent | src/lib.rs:55-71 | cleaning twice gives the same items as cleaning once |
| TusksMacro.Tusks | src/lib.rs:9-32 | extraction failure yields its compile error and no rewrite; otherwise the module's attributes and name are kept; `mod m;` is returned unchanged; an inline body becomes its cleaned items followed by exactly one appended item, the one generated from the tree extracted from the uncleaned module |

## Left out

- `TusksNode::from_module` (src/lib.rs:12) is defined in `tusks_lib`, which is not part of this model. It is the `extract` parameter of `Tusks`, with any success or error result.
- `create_internal_tusks_module`, `to_tokens` and `create_mirror` (src/lib.rs:34-52) generate code from that tree. They are modelled together as the `generate` parameter, an opaque item.
- Token-stream parsing and quoting (`parse_macro_input!`, `quote!`, `syn::parse2`, `TokenStream` conversions) are not modelled. They are foreign library calls and code emission. The macro's input is taken as an already parsed module.
- The panic when the generated module fails to reparse (src/lib.rs:23) is not modelled. It is a failure of a foreign parser, and `generate` always yields an item.
- Attributes on items that the walk does not visit are not modelled: impl methods, trait items, structs and the rest. They are carried as opaque `Other` items, and the model claims only that they are unchanged.
- Visibility, `unsafe`, the brace tokens and spans of items are not modelled. The walk neither reads nor changes them.
- Attribute paths as parsed never carry segment arguments, so `#[defaults<T>]` cannot occur. The argument test in `Syntax.GetIdent` is kept only to match `get_ident`, and no claim rests on it.
- Identifiers are compared by their text. A raw identifier such as `r#defaults` is written as its text with the `r#` prefix, so it is not the identifier `defaults`.
- The command-tree pipeline is not modelled: link resolution, attribute interpretation, parameter supplementation, CLI schema and dispatch compilation, and dynamic tasks. It lives in `tusks_lib`, which is not part of this model.
