/** The recursive cleanup pass of the `tusks` macro: it walks a module's item
    list, filters the `defaults` attributes out of every function item, and
    descends into every module that has an inline body. Nothing else is
    edited. */
module DefaultsCleanup {
  import opened Syntax
  import opened DefaultsAttrs

  /** No function item of this item, nor of any inline module nested in it,
      carries a `defaults` attribute. */
  predicate ItemClean(item: Item)
    decreases item
  {
    match item
    case Fn(f) => NoDefaults(f.attrs)
    case Mod(m) =>
      m.content.Inline? ==> forall k :: 0 <= k < |m.content.items| ==> ItemClean(m.content.items[k])
    case Other(_, _, _) => true
  }

  predicate ItemsClean(items: seq<Item>)
  {
    forall k :: 0 <= k < |items| ==> ItemClean(items[k])
  }

  /** `c` is what cleaning `item` must give. A function keeps everything but
      its attribute list, which becomes the retained non-`defaults`
      attributes. A module keeps everything, its own attributes included,
      except that an inline body is replaced by one of the same length whose
      items are, position by position, the cleaned originals. A `mod m;` and
      any other item are left exactly as they were. */
  ghost predicate ItemCleaned(item: Item, c: Item)
    decreases item
  {
    match item
    case Fn(f) => c.Fn? && c.f == f.(attrs := c.f.attrs) && Retains(f.attrs, c.f.attrs)
    case Mod(m) =>
      && c.Mod?
      && c.m == m.(content := c.m.content)
      && (match m.content
          case External => c.m.content.External?
          case Inline(items) =>
            && c.m.content.Inline?
            && |c.m.content.items| == |items|
            && forall k :: 0 <= k < |items| ==> ItemCleaned(items[k], c.m.content.items[k]))
    case Other(_, _, _) => c == item
  }

  ghost predicate ItemsCleaned(items: seq<Item>, cs: seq<Item>)
  {
    |cs| == |items| && forall k :: 0 <= k < |items| ==> ItemCleaned(items[k], cs[k])
  }

  /** One step of the walk: a function is filtered, an inline module is
      recursed into, everything else is skipped. */
  function CleanupItem(item: Item): (c: Item)
    decreases item
    ensures ItemCleaned(item, c)
    ensures ItemClean(c)
  {
    match item
    case Fn(f) =>
      RemoveDefaultsAttrsRetains(f.attrs);
      Fn(f.(attrs := RemoveDefaultsAttrs(f.attrs)))
    case Mod(m) =>
      if m.content.Inline? then
        var items := m.content.items;
        Mod(m.(content := Inline(seq(|items|, k requires 0 <= k < |items| => CleanupItem(items[k])))))
      else item
    case Other(_, _, _) => item
  }

  /** Cleans every item of a list in place: same length, same kinds in the
      same order, and no `defaults` attribute left on any function at any
      depth of inline modules. */
  function CleanupItems(items: seq<Item>): (cs: seq<Item>)
    ensures ItemsCleaned(items, cs)
    ensures ItemsClean(cs)
  {
    seq(|items|, k requires 0 <= k < |items| => CleanupItem(items[k]))
  }

  /** The cleaning relation is functional: whatever is related to an item is
      the cleanup pass's result on it. */
  lemma {:induction false} ItemCleanedIsCleanup(item: Item, c: Item)
    requires ItemCleaned(item, c)
    ensures c == CleanupItem(item)
    decreases item
  {
    match item
    case Fn(f) =>
      RetainsDetermines(f.attrs, c.f.attrs);
    case Mod(m) =>
      if m.content.Inline? {
        var items := m.content.items;
        var cs := c.m.content.items;
        forall k | 0 <= k < |items| ensures cs[k] == CleanupItem(items[k]) {
          ItemCleanedIsCleanup(items[k], cs[k]);
        }
        assert cs == CleanupItem(item).m.content.items;
      }
    case Other(_, _, _) =>
  }

  lemma {:induction false} ItemsCleanedIsCleanup(items: seq<Item>, cs: seq<Item>)
    requires ItemsCleaned(items, cs)
    ensures cs == CleanupItems(items)
  {
    forall k | 0 <= k < |items| ensures cs[k] == CleanupItems(items)[k] {
      ItemCleanedIsCleanup(items[k], cs[k]);
    }
  }

  /** Cleaning leaves an item unchanged exactly when it is already clean. */
  lemma {:induction false} CleanupItemFixpoint(item: Item)
    ensures CleanupItem(item) == item <==> ItemClean(item)
    decreases item
  {
    match item
    case Fn(f) =>
      RemoveDefaultsAttrsFixpoint(f.attrs);
    case Mod(m) =>
      if m.content.Inline? && ItemClean(item) {
        var items := m.content.items;
        forall k | 0 <= k < |items| ensures CleanupItem(items[k]) == items[k] {
          CleanupItemFixpoint(items[k]);
        }
        assert CleanupItem(item).m.content.items == items;
      }
    case Other(_, _, _) =>
  }

  /** Cleaning leaves an item list unchanged exactly when no function in it,
      at any depth of inline modules, carries a `defaults` attribute. */
  lemma {:induction false} CleanupItemsFixpoint(items: seq<Item>)
    ensures CleanupItems(items) == items <==> ItemsClean(items)
  {
    if ItemsClean(items) {
      forall k | 0 <= k < |items| ensures CleanupItems(items)[k] == items[k] {
        CleanupItemFixpoint(items[k]);
      }
    }
  }

  /** Running the cleanup pass twice gives the same items as running it once. */
  lemma {:induction false} CleanupIdempotent(items: seq<Item>)
    ensures CleanupItems(CleanupItems(items)) == CleanupItems(items)
  {
    CleanupItemsFixpoint(CleanupItems(items));
  }
}
