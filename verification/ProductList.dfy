/** The product list page's state updates (src/components/ProductList.js):
    toggling a product's selection and the mass delete of the selected ones.
    Rendering is not modelled. */
module ProductList {
  import opened Sequences

  /** A product as the list page holds it. */
  datatype Product = Product(sku: string, name: string, price: string, details: string)

  /** The component's two pieces of state. */
  datatype ListState = ListState(products: seq<Product>, selected: seq<string>)

  /** `list.indexOf(x)` for an `x` the list includes: its first occurrence. */
  function IndexOf(list: seq<string>, x: string): (i: nat)
    requires x in list
    ensures i < |list| && list[i] == x && x !in list[..i]
  {
    if list[0] == x then 0 else 1 + IndexOf(list[1..], x)
  }

  /** The selection update of `handleSelectProduct`: remove the first occurrence
      of a selected sku, append one that is not selected. */
  function Toggle(selected: seq<string>, sku: string): (r: seq<string>)
    ensures sku !in selected ==> r == selected + [sku]
    ensures sku in selected ==>
              exists i :: && 0 <= i < |selected| && selected[i] == sku && sku !in selected[..i]
                          && r == selected[..i] + selected[i + 1..]
  {
    if sku in selected then
      var i := IndexOf(selected, sku);
      selected[..i] + selected[i + 1..]
    else selected + [sku]
  }

  /** Without duplicates, toggling flips membership of the toggled sku only and
      introduces no duplicate. */
  lemma ToggleFlips(selected: seq<string>, sku: string)
    requires NoDup(selected)
    ensures NoDup(Toggle(selected, sku))
    ensures forall x :: x in Toggle(selected, sku) <==> (x in selected) != (x == sku)
  {
    var r := Toggle(selected, sku);
    if sku in selected {
      var i := IndexOf(selected, sku);
      assert r == selected[..i] + selected[i + 1..];
      assert forall j :: 0 <= j < |r| ==> r[j] == (if j < i then selected[j] else selected[j + 1]);
      forall x
        ensures x in r <==> (x in selected) != (x == sku)
      {
        if x in selected && x != sku {
          var j :| 0 <= j < |selected| && selected[j] == x;
          assert j != i;
          if j < i { assert r[j] == x; } else { assert r[j - 1] == x; }
        }
      }
    }
  }

  /** Toggling an unselected sku twice gives back exactly the original selection. */
  lemma ToggleTwiceUnselected(selected: seq<string>, sku: string)
    requires sku !in selected
    ensures Toggle(Toggle(selected, sku), sku) == selected
  {
    var once := selected + [sku];
    assert IndexOf(once, sku) == |selected|;
    assert once[..|selected|] == selected;
  }

  /** Without duplicates, toggling the same sku twice restores the set of
      selected skus (a selected sku moves to the end). */
  lemma ToggleTwiceRestoresSet(selected: seq<string>, sku: string)
    requires NoDup(selected)
    ensures forall x :: x in Toggle(Toggle(selected, sku), sku) <==> x in selected
  {
    ToggleFlips(selected, sku);
    ToggleFlips(Toggle(selected, sku), sku);
  }

  /** With a duplicate the set is not restored: the precondition above is needed. */
  lemma ToggleTwiceWithDuplicate()
    ensures Toggle(Toggle(["a", "a"], "a"), "a") == []
  {
    assert IndexOf(["a", "a"], "a") == 0;
    assert Toggle(["a", "a"], "a") == ["a"];
  }

  /** `handleSelectProduct`: only the selection changes; on a duplicate-free
      selection the clicked sku's membership flips and nothing else's does. */
  function HandleSelectProduct(s: ListState, sku: string): (r: ListState)
    ensures r.products == s.products
    ensures NoDup(s.selected) ==>
              && NoDup(r.selected)
              && forall x :: x in r.selected <==> (x in s.selected) != (x == sku)
  {
    ToggleFlipsIfNoDup(s.selected, sku);
    s.(selected := Toggle(s.selected, sku))
  }

  lemma ToggleFlipsIfNoDup(selected: seq<string>, sku: string)
    ensures NoDup(selected) ==>
              && NoDup(Toggle(selected, sku))
              && forall x :: x in Toggle(selected, sku) <==> (x in selected) != (x == sku)
  {
    if NoDup(selected) {
      ToggleFlips(selected, sku);
    }
  }

  // ---------------------------------------------------------------- mass delete

  /** The inner `tempList.forEach((item, index) => ...)` for one selected id,
      splicing out each match. As in JavaScript, `len` is the length captured
      when the iteration starts, indices past the current end are skipped, and
      the element moved into a spliced slot is never visited. */
  function SpliceMatches(list: seq<Product>, id: string, index: nat, len: nat): seq<Product>
    decreases len - index
  {
    if index >= len then list
    else if index < |list| && list[index].sku == id then
      SpliceMatches(list[..index] + list[index + 1..], id, index + 1, len)
    else SpliceMatches(list, id, index + 1, len)
  }

  /** The outer `selectedProducts.forEach(id => ...)`. */
  function DeleteSelected(list: seq<Product>, ids: seq<string>): seq<Product>
    decreases |ids|
  {
    if ids == [] then list
    else DeleteSelected(SpliceMatches(list, ids[0], 0, |list|), ids[1..])
  }

  predicate UniqueSkus(products: seq<Product>) {
    forall i, j :: 0 <= i < j < |products| ==> products[i].sku != products[j].sku
  }

  function NotSku(id: string): Product -> bool {
    (p: Product) => p.sku != id
  }

  function NotSelected(ids: seq<string>): Product -> bool {
    (p: Product) => p.sku !in ids
  }

  /** The page's initial list: eight "Acme DISC" entries, JVC200123 to JVC200130. */
  const InitialProducts: seq<Product> :=
    [Disc("JVC200123"), Disc("JVC200124"), Disc("JVC200125"), Disc("JVC200126"),
     Disc("JVC200127"), Disc("JVC200128"), Disc("JVC200129"), Disc("JVC200130")]

  function Disc(sku: string): Product {
    Product(sku, "Acme DISC", "0", "Size: 1000")
  }

  /** The list the page starts from has no repeated sku, so from there the mass
      delete removes exactly the selected products. */
  lemma InitialListUnique(selected: seq<string>)
    ensures UniqueSkus(InitialProducts)
    ensures HandleMassDelete(ListState(InitialProducts, selected)).products
            == Unselected(InitialProducts, selected)
  {
    forall i, j | 0 <= i < j < |InitialProducts|
      ensures InitialProducts[i].sku != InitialProducts[j].sku
    {
      assert InitialProducts[i].sku[8] != InitialProducts[j].sku[8];
    }
  }

  /** The products whose sku is not selected, in their original order. */
  function Unselected(products: seq<Product>, ids: seq<string>): seq<Product> {
    Filter(products, NotSelected(ids))
  }

  /** `handleMassDeleteClicked`: only the product list changes. With unique skus
      it removes exactly the selected products and keeps the others in order. */
  function HandleMassDelete(s: ListState): (r: ListState)
    ensures r.selected == s.selected
    ensures UniqueSkus(s.products) ==> r.products == Unselected(s.products, s.selected)
    ensures UniqueSkus(s.products) ==> IsSubsequence(r.products, s.products)
    ensures UniqueSkus(s.products) ==>
              && (forall i :: 0 <= i < |r.products| ==> r.products[i].sku !in s.selected)
              && (forall i :: 0 <= i < |s.products| && s.products[i].sku !in s.selected ==>
                    s.products[i] in r.products)
  {
    MassDeleteWhenUnique(s.products, s.selected);
    ListState(DeleteSelected(s.products, s.selected), s.selected)
  }

  lemma MassDeleteWhenUnique(products: seq<Product>, ids: seq<string>)
    ensures UniqueSkus(products) ==>
              && DeleteSelected(products, ids) == Unselected(products, ids)
              && IsSubsequence(Unselected(products, ids), products)
              && (forall i :: 0 <= i < |products| && products[i].sku !in ids ==>
                    products[i] in Unselected(products, ids))
  {
    if UniqueSkus(products) {
      DeleteSelectedUnique(products, ids);
      FilterIsSubsequence(products, NotSelected(ids));
      FilterMembers(products, NotSelected(ids));
    }
  }

  /** Past the last match, the inner loop changes nothing. */
  lemma {:induction false} SpliceNoMatch(list: seq<Product>, id: string, index: nat, len: nat)
    requires forall i :: index <= i < |list| ==> list[i].sku != id
    ensures SpliceMatches(list, id, index, len) == list
    decreases len - index
  {
    if index < len {
      SpliceNoMatch(list, id, index + 1, len);
    }
  }

  /** With unique skus the inner loop removes exactly the product with the id
      (the one it skips after a splice cannot carry the same sku). */
  lemma {:induction false} SpliceUnique(list: seq<Product>, id: string, index: nat, len: nat)
    requires UniqueSkus(list)
    requires index <= |list| <= len
    ensures SpliceMatches(list, id, index, len) == list[..index] + Filter(list[index..], NotSku(id))
    decreases len - index
  {
    if index == |list| {
      SpliceNoMatch(list, id, index, len);
      assert list[index..] == [];
      assert list[..index] == list;
    } else if list[index].sku == id {
      SpliceAtMatch(list, id, index, len);
    } else {
      SpliceUnique(list, id, index + 1, len);
      SpliceSkip(list, id, index, len);
    }
  }

  /** The step of `SpliceUnique` past a product without the id. */
  lemma SpliceSkip(list: seq<Product>, id: string, index: nat, len: nat)
    requires index < |list| <= len && list[index].sku != id
    requires SpliceMatches(list, id, index + 1, len)
             == list[..index + 1] + Filter(list[index + 1..], NotSku(id))
    ensures SpliceMatches(list, id, index, len) == list[..index] + Filter(list[index..], NotSku(id))
  {
    var f := Filter(list[index + 1..], NotSku(id));
    calc {
      SpliceMatches(list, id, index, len);
    ==  { SpliceStep(list, id, index, len); }
        SpliceMatches(list, id, index + 1, len);
    ==  list[..index + 1] + f;
    ==  { assert list[..index + 1] == list[..index] + [list[index]]; }
        list[..index] + ([list[index]] + f);
    ==  { FilterFromKept(list, id, index); }
        list[..index] + Filter(list[index..], NotSku(id));
    }
  }

  /** The inner loop moves past a product without the id. */
  lemma SpliceStep(list: seq<Product>, id: string, index: nat, len: nat)
    requires index < len && index < |list| && list[index].sku != id
    ensures SpliceMatches(list, id, index, len) == SpliceMatches(list, id, index + 1, len)
  {
  }

  /** Filtering from a product without the id keeps that product in front. */
  lemma FilterFromKept(list: seq<Product>, id: string, index: nat)
    requires index < |list| && list[index].sku != id
    ensures Filter(list[index..], NotSku(id)) == [list[index]] + Filter(list[index + 1..], NotSku(id))
  {
    var tail := list[index..];
    assert tail[0] == list[index] && tail[1..] == list[index + 1..];
    assert NotSku(id)(tail[0]);
  }

  /** The step of `SpliceUnique` at the (only) product carrying the id. */
  lemma SpliceAtMatch(list: seq<Product>, id: string, index: nat, len: nat)
    requires UniqueSkus(list)
    requires index < |list| <= len && list[index].sku == id
    ensures SpliceMatches(list, id, index, len) == list[..index] + Filter(list[index..], NotSku(id))
  {
    var rest := list[..index] + list[index + 1..];
    assert forall i :: index <= i < |rest| ==> rest[i] == list[i + 1];
    SpliceNoMatch(rest, id, index + 1, len);
    assert SpliceMatches(list, id, index, len) == rest;
    assert list[index..] == [list[index]] + list[index + 1..];
    FilterKeepsAll(list[index + 1..], NotSku(id));
  }

  /** Filtering keeps skus unique. */
  lemma {:induction false} FilterKeepsUnique(products: seq<Product>, keep: Product -> bool)
    requires UniqueSkus(products)
    ensures UniqueSkus(Filter(products, keep))
  {
    if products != [] {
      var rest := products[1..];
      FilterKeepsUnique(rest, keep);
      if keep(products[0]) {
        var f := Filter(rest, keep);
        FilterMembers(rest, keep);
        forall j | 0 <= j < |f|
          ensures products[0].sku != f[j].sku
        {
          var m :| 0 <= m < |rest| && rest[m] == f[j];
          assert products[m + 1] == f[j];
        }
        assert forall j :: 0 < j < |[products[0]] + f| ==> ([products[0]] + f)[j] == f[j - 1];
      }
    }
  }

  /** With unique skus the nested loops compute the filter by selection. */
  lemma {:induction false} DeleteSelectedUnique(products: seq<Product>, ids: seq<string>)
    requires UniqueSkus(products)
    ensures DeleteSelected(products, ids) == Unselected(products, ids)
    decreases |ids|
  {
    if ids == [] {
      FilterKeepsAll(products, NotSelected(ids));
    } else {
      var once := SpliceMatches(products, ids[0], 0, |products|);
      SpliceUnique(products, ids[0], 0, |products|);
      assert products[0..] == products;
      assert once == Filter(products, NotSku(ids[0]));
      FilterKeepsUnique(products, NotSku(ids[0]));
      DeleteSelectedUnique(once, ids[1..]);
      FilterFilter(products, NotSku(ids[0]), NotSelected(ids[1..]), NotSelected(ids));
    }
  }

  /** With a repeated sku the splice skips the second copy, so a product whose
      sku is selected survives the mass delete. */
  lemma MassDeleteWithDuplicateSku(a: Product, b: Product)
    requires a.sku == b.sku
    ensures HandleMassDelete(ListState([a, b], [a.sku])).products == [b]
  {
    var x := a.sku;
    assert [a, b][..0] + [a, b][1..] == [b];
    assert SpliceMatches([b], x, 1, 2) == SpliceMatches([b], x, 2, 2) == [b];
    assert SpliceMatches([a, b], x, 0, 2) == [b];
    assert [x][1..] == [];
    assert DeleteSelected([a, b], [x]) == DeleteSelected([b], []) == [b];
  }
}
