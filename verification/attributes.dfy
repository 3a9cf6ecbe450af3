/** The attribute filter of the `tusks` macro: every attribute whose path is
    the bare identifier `defaults` is dropped from a list, all others are
    retained in their original order. */
module DefaultsAttrs {
  import opened Syntax

  const DefaultsIdent: string := "defaults"

  /** `#[defaults]`, `#[defaults(...)]` and `#[defaults = ...]`, but not
      `#[a::defaults]` or `#[::defaults]`. */
  predicate IsDefaults(a: Attribute)
  {
    IsIdent(a.path, DefaultsIdent)
  }

  predicate NoDefaults(attrs: seq<Attribute>)
  {
    forall a :: a in attrs ==> !IsDefaults(a)
  }

  /** Retains the attributes that are not `defaults` attributes. */
  function RemoveDefaultsAttrs(attrs: seq<Attribute>): (kept: seq<Attribute>)
    ensures NoDefaults(kept)
    ensures forall a :: a in kept <==> a in attrs && !IsDefaults(a)
    ensures |kept| <= |attrs|
  {
    if |attrs| == 0 then []
    else if IsDefaults(attrs[0]) then RemoveDefaultsAttrs(attrs[1..])
    else [attrs[0]] + RemoveDefaultsAttrs(attrs[1..])
  }

  /** Number of attributes of `attrs` that are not `defaults` attributes. */
  function KeptCount(attrs: seq<Attribute>): nat
  {
    if |attrs| == 0 then 0
    else (if IsDefaults(attrs[0]) then 0 else 1) + KeptCount(attrs[1..])
  }

  /** `kept` is what retaining the non-`defaults` attributes of `attrs` must
      give: one entry per non-`defaults` attribute, none of them a `defaults`
      attribute, and the non-`defaults` attribute at index `k` of `attrs`
      placed right after the kept attributes that precede it in `attrs`, so
      that the relative order of the survivors is the original one. */
  ghost predicate Retains(attrs: seq<Attribute>, kept: seq<Attribute>)
  {
    && |kept| == KeptCount(attrs)
    && NoDefaults(kept)
    && forall k :: 0 <= k < |attrs| && !IsDefaults(attrs[k]) ==>
         KeptCount(attrs[..k]) < |kept| && kept[KeptCount(attrs[..k])] == attrs[k]
  }

  /** Counting the kept attributes of a non-empty prefix: the first attribute
      contributes to the count, then the rest of the prefix. */
  lemma KeptCountPrefix(attrs: seq<Attribute>, k: nat)
    requires 0 < k <= |attrs|
    ensures KeptCount(attrs[..k]) == (if IsDefaults(attrs[0]) then 0 else 1) + KeptCount(attrs[1..][..k - 1])
  {
    assert attrs[..k][0] == attrs[0];
    assert attrs[..k][1..] == attrs[1..][..k - 1];
  }

  /** The filter meets the retain specification. */
  lemma {:induction false} RemoveDefaultsAttrsRetains(attrs: seq<Attribute>)
    ensures Retains(attrs, RemoveDefaultsAttrs(attrs))
  {
    if |attrs| > 0 {
      var rest := attrs[1..];
      var kept := RemoveDefaultsAttrs(attrs);
      RemoveDefaultsAttrsRetains(rest);
      var c := if IsDefaults(attrs[0]) then 0 else 1;
      assert kept[c..] == RemoveDefaultsAttrs(rest);
      forall k | 0 <= k < |attrs| && !IsDefaults(attrs[k])
        ensures KeptCount(attrs[..k]) < |kept| && kept[KeptCount(attrs[..k])] == attrs[k]
      {
        if k > 0 {
          KeptCountPrefix(attrs, k);
          assert rest[k - 1] == attrs[k];
        }
      }
    }
  }

  /** The retain specification admits exactly one list: the filter's. */
  lemma {:induction false} RetainsDetermines(attrs: seq<Attribute>, kept: seq<Attribute>)
    requires Retains(attrs, kept)
    ensures kept == RemoveDefaultsAttrs(attrs)
  {
    if |attrs| > 0 {
      var rest := attrs[1..];
      var c := if IsDefaults(attrs[0]) then 0 else 1;
      if c == 1 {
        assert attrs[..0] == [];
        assert kept[0] == attrs[0];
      }
      var tail := kept[c..];
      forall j | 0 <= j < |rest| && !IsDefaults(rest[j])
        ensures KeptCount(rest[..j]) < |tail| && tail[KeptCount(rest[..j])] == rest[j]
      {
        KeptCountPrefix(attrs, j + 1);
        assert attrs[j + 1] == rest[j];
      }
      assert forall a :: a in tail ==> a in kept;
      RetainsDetermines(rest, tail);
      if c == 1 {
        assert kept == [attrs[0]] + tail;
      }
    }
  }

  /** Filtering changes a list exactly when it holds a `defaults` attribute;
      in particular filtering twice is the same as filtering once. */
  lemma {:induction false} RemoveDefaultsAttrsFixpoint(attrs: seq<Attribute>)
    ensures RemoveDefaultsAttrs(attrs) == attrs <==> NoDefaults(attrs)
  {
    if |attrs| > 0 && NoDefaults(attrs) {
      assert attrs[0] in attrs;
      assert NoDefaults(attrs[1..]) by {
        forall a | a in attrs[1..] ensures a in attrs { }
      }
      RemoveDefaultsAttrsFixpoint(attrs[1..]);
      assert attrs == [attrs[0]] + attrs[1..];
    }
  }

  /** Only a path that is the bare identifier `defaults` is removed: a
      qualified `a::defaults` or an anchored `::defaults` stays. */
  lemma OnlyBareDefaultsRemoved(a: Attribute)
    ensures RemoveDefaultsAttrs([a]) == [] <==> a.path == Path(false, [PathSegment(DefaultsIdent, NoArguments)])
    ensures RemoveDefaultsAttrs([a]) == [] || RemoveDefaultsAttrs([a]) == [a]
  {
  }
}
