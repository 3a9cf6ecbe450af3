/** The item-list edit made by the `tusks` attribute macro. The command tree
    is extracted from the module as written (with its `defaults` attributes
    still present); on failure the macro expands to the extraction error's
    compile error and nothing else happens. On success, an inline module's
    items are cleaned and the generated internal module is appended after
    them; a `mod m;` is returned unchanged. Extraction and the generation of
    the internal module belong to another library and are parameters here. */
module TusksMacro {
  import opened Results
  import opened Syntax
  import opened DefaultsCleanup

  /** The macro's output: the rewritten module, or the compile error of a
      failed extraction. */
  datatype Expansion<E> = Expanded(m: ItemMod) | CompileError(error: E)

  function Tusks<Tree, E>(input: ItemMod, extract: ItemMod -> Result<Tree, E>, generate: Tree -> Item): (r: Expansion<E>)
    ensures extract(input).Err? ==> r == CompileError(extract(input).error)
    ensures extract(input).Ok? ==> r.Expanded? && r.m == input.(content := r.m.content)
    ensures extract(input).Ok? && input.content.External? ==> r == Expanded(input)
    ensures extract(input).Ok? && input.content.Inline? ==>
      var items := input.content.items;
      var out := r.m.content;
      && out.Inline?
      && |out.items| == |items| + 1
      && ItemsCleaned(items, out.items[..|items|])
      && ItemsClean(out.items[..|items|])
      && out.items[|items|] == generate(extract(input).value)
  {
    match extract(input)
    case Err(e) => CompileError(e)
    case Ok(tree) =>
      match input.content
      case External => Expanded(input)
      case Inline(items) =>
        var cleaned := CleanupItems(items);
        var out := cleaned + [generate(tree)];
        assert out[..|items|] == cleaned;
        Expanded(input.(content := Inline(out)))
  }
}
