/**
 What the three cart operations promise: the error case, where the
 touched item ends up and with which quantity, that every other item is
 left as it was and in its order, the lengths when ids are unique, and
 that unique ids and positive quantities are kept.
 */
module CartProperties {
  import opened CartLists

  // ---------------------------------------------------------------------
  // Facts about the list helpers

  /** A one-item list holds an id exactly when its item has it. */
  lemma HasIdSingleton(p: Product, x: string)
    ensures HasId([p], x) <==> p.id == x
  {
    assert [p][0] == p;
  }

  /** A search in a one-item list. */
  lemma FindSingleton(p: Product, x: string)
    ensures Find([p], x) == if p.id == x then Some(p) else None
  {
    HasIdSingleton(p, x);
  }

  /** Filtering a one-item list. */
  lemma FilterOutSingleton(p: Product, id: string)
    ensures FilterOut([p], id) == if p.id == id then [] else [p]
  {
    assert [p][1..] == [];
  }

  /** Filtering drops exactly the items with that id. */
  lemma {:induction false} FilterOutLength(ps: seq<Product>, id: string)
    ensures |FilterOut(ps, id)| == |ps| - CountId(ps, id)
  {
    if |ps| > 0 {
      FilterOutLength(ps[1..], id);
    }
  }

  /** Filtering keeps exactly the items with another id. */
  lemma {:induction false} FilterOutMembers(ps: seq<Product>, id: string)
    ensures forall p :: p in FilterOut(ps, id) <==> p in ps && p.id != id
  {
    if |ps| > 0 {
      FilterOutMembers(ps[1..], id);
      assert forall p :: p in ps <==> p == ps[0] || p in ps[1..] by {
        assert ps == [ps[0]] + ps[1..];
      }
    }
  }

  /** Filtering distributes over concatenation (it keeps relative order). */
  lemma {:induction false} FilterOutAppend(a: seq<Product>, b: seq<Product>, id: string)
    ensures FilterOut(a + b, id) == FilterOut(a, id) + FilterOut(b, id)
  {
    if |a| == 0 {
      assert a + b == b;
    } else {
      assert (a + b)[1..] == a[1..] + b;
      FilterOutAppend(a[1..], b, id);
    }
  }

  /** Filtering out an id that is absent changes nothing. */
  lemma {:induction false} FilterOutAbsent(ps: seq<Product>, id: string)
    requires !HasId(ps, id)
    ensures FilterOut(ps, id) == ps
  {
    if |ps| > 0 {
      assert ps[0].id != id;
      assert !HasId(ps[1..], id) by {
        forall i | 0 <= i < |ps[1..]| ensures ps[1..][i].id != id {
          assert ps[1..][i] == ps[i + 1];
        }
      }
      FilterOutAbsent(ps[1..], id);
      assert ps == [ps[0]] + ps[1..];
    }
  }

  /** The tail of a list with unique ids has unique ids. */
  lemma UniqueTail(ps: seq<Product>)
    requires UniqueIds(ps) && |ps| > 0
    ensures UniqueIds(ps[1..])
  {
    forall i, j | 0 <= i < j < |ps[1..]| ensures ps[1..][i].id != ps[1..][j].id {
      assert ps[1..][i] == ps[i + 1] && ps[1..][j] == ps[j + 1];
    }
  }

  /** With unique ids, filtering out the id of item `k` removes exactly
      that item and keeps the rest in order. */
  lemma {:induction false} FilterOutUnique(ps: seq<Product>, k: int)
    requires UniqueIds(ps) && 0 <= k < |ps|
    ensures FilterOut(ps, ps[k].id) == ps[..k] + ps[k + 1..]
  {
    var id := ps[k].id;
    UniqueTail(ps);
    if k == 0 {
      assert !HasId(ps[1..], id) by {
        forall i | 0 <= i < |ps[1..]| ensures ps[1..][i].id != id {
          assert ps[1..][i] == ps[i + 1];
        }
      }
      FilterOutAbsent(ps[1..], id);
      assert ps[..0] + ps[1..] == ps[1..];
    } else {
      assert ps[0].id != id;
      assert ps[1..][k - 1] == ps[k];
      FilterOutUnique(ps[1..], k - 1);
      assert [ps[0]] + (ps[1..][..k - 1] + ps[1..][k..]) == ps[..k] + ps[k + 1..];
    }
  }

  /** Filtering keeps ids unique. */
  lemma {:induction false} FilterOutKeepsUnique(ps: seq<Product>, id: string)
    requires UniqueIds(ps)
    ensures UniqueIds(FilterOut(ps, id))
  {
    if |ps| > 0 {
      UniqueTail(ps);
      FilterOutKeepsUnique(ps[1..], id);
      FilterOutMembers(ps[1..], id);
      if ps[0].id != id {
        var rest := FilterOut(ps[1..], id);
        assert !HasId(rest, ps[0].id) by {
          forall i | 0 <= i < |rest| ensures rest[i].id != ps[0].id {
            assert rest[i] in ps[1..];
            var j :| 0 <= j < |ps[1..]| && ps[1..][j] == rest[i];
            assert ps[1..][j] == ps[j + 1];
          }
        }
        PrependKeepsUnique(ps[0], rest);
      }
    }
  }

  /** Filtering keeps quantities positive. */
  lemma FilterOutKeepsPositive(ps: seq<Product>, id: string)
    requires AllPositive(ps)
    ensures AllPositive(FilterOut(ps, id))
  {
    var r := FilterOut(ps, id);
    FilterOutMembers(ps, id);
    forall i | 0 <= i < |r| ensures r[i].quantity >= 1 {
      assert r[i] in ps;
      var j :| 0 <= j < |ps| && ps[j] == r[i];
    }
  }

  /** Putting an item whose id is absent in front keeps ids unique. */
  lemma PrependKeepsUnique(p: Product, s: seq<Product>)
    requires UniqueIds(s) && !HasId(s, p.id)
    ensures UniqueIds([p] + s)
  {
    forall i, j | 0 <= i < j < |[p] + s| ensures ([p] + s)[i].id != ([p] + s)[j].id {
      assert ([p] + s)[j] == s[j - 1];
      if i > 0 { assert ([p] + s)[i] == s[i - 1]; }
    }
  }

  /** Putting an item whose id is absent at the end keeps ids unique. */
  lemma AppendKeepsUnique(s: seq<Product>, p: Product)
    requires UniqueIds(s) && !HasId(s, p.id)
    ensures UniqueIds(s + [p])
  {
    forall i, j | 0 <= i < j < |s + [p]| ensures (s + [p])[i].id != (s + [p])[j].id {
      assert (s + [p])[i] == s[i];
      if j == |s| { assert s[i].id != p.id; }
    }
  }

  /** The first match in a concatenation is in the left part if there is
      one there, and otherwise in the right part. */
  lemma {:induction false} FindAppend(a: seq<Product>, b: seq<Product>, x: string)
    ensures Find(a + b, x) == if HasId(a, x) then Find(a, x) else Find(b, x)
  {
    if |a| == 0 {
      assert a + b == b;
    } else {
      assert (a + b)[1..] == a[1..] + b;
      FindAppend(a[1..], b, x);
      assert (a + b)[0] == a[0];
      assert HasId(a, x) <==> a[0].id == x || HasId(a[1..], x) by { HasIdCons(a, x); }
    }
  }

  /** Filtering out one id does not change where any other id is found. */
  lemma {:induction false} FindFilterOut(ps: seq<Product>, id: string, x: string)
    requires x != id
    ensures Find(FilterOut(ps, id), x) == Find(ps, x)
  {
    if |ps| > 0 {
      FindFilterOut(ps[1..], id, x);
      assert ps == [ps[0]] + ps[1..];
      FindAppend([ps[0]], ps[1..], x);
      assert HasId([ps[0]], x) <==> ps[0].id == x by {
        assert [ps[0]][0] == ps[0];
      }
      if ps[0].id != id {
        FindAppend([ps[0]], FilterOut(ps[1..], id), x);
      }
    }
  }

  /** With unique ids, an item is what a search for its id finds. */
  lemma FindUnique(ps: seq<Product>, k: int)
    requires UniqueIds(ps) && 0 <= k < |ps|
    ensures Find(ps, ps[k].id) == Some(ps[k])
  {
    assert HasId(ps, ps[k].id);
    var j := FindIndex(ps, ps[k].id);
    assert ps[j].id == ps[k].id;
  }

  // ---------------------------------------------------------------------
  // increment

  /** Appending an item with id `id` to a list without that id: the search
      for `id` finds the new item, a search for another id is unaffected, and
      filtering `id` out again restores the list. */
  lemma AppendFresh(rest: seq<Product>, p: Product, x: string)
    requires !HasId(rest, p.id)
    ensures Find(rest + [p], p.id) == Some(p)
    ensures x != p.id ==> Find(rest + [p], x) == Find(rest, x)
    ensures FilterOut(rest + [p], p.id) == rest
  {
    FindAppend(rest, [p], p.id);
    FindAppend(rest, [p], x);
    FindSingleton(p, p.id);
    FindSingleton(p, x);
    FilterOutAppend(rest, [p], p.id);
    FilterOutSingleton(p, p.id);
    FilterOutAbsent(rest, p.id);
  }

  /** Putting an item with id `id` in front of a list without that id: the
      same three facts as for appending. */
  lemma PrependFresh(p: Product, rest: seq<Product>, x: string)
    requires !HasId(rest, p.id)
    ensures Find([p] + rest, p.id) == Some(p)
    ensures x != p.id ==> Find([p] + rest, x) == Find(rest, x)
    ensures FilterOut([p] + rest, p.id) == rest
  {
    FindAppend([p], rest, p.id);
    FindAppend([p], rest, x);
    HasIdSingleton(p, p.id);
    HasIdSingleton(p, x);
    FindSingleton(p, p.id);
    FilterOutAppend([p], rest, p.id);
    FilterOutSingleton(p, p.id);
    FilterOutAbsent(rest, p.id);
  }

  /** The list `increment` builds for a present id, unfolded once. */
  lemma IncrementValue(ps: seq<Product>, id: string)
    requires HasId(ps, id)
    ensures var p := Find(ps, id).value;
      Increment(ps, id) == Ok(FilterOut(ps, id) + [p.(quantity := p.quantity + 1)])
  {
  }

  /** The list `decrement` builds for a present id, unfolded once. */
  lemma DecrementValue(ps: seq<Product>, id: string)
    requires HasId(ps, id)
    ensures var p := Find(ps, id).value;
      Decrement(ps, id) == Ok(if p.quantity == 1 then FilterOut(ps, id)
                              else [p.(quantity := p.quantity - 1)] + FilterOut(ps, id))
  {
  }

  /** `increment` of a present id leaves the search for any other id as
      it was. */
  lemma IncrementKeepsOthers(ps: seq<Product>, id: string, x: string)
    requires HasId(ps, id) && x != id
    ensures Find(Increment(ps, id).value, x) == Find(ps, x)
  {
    var before := Find(ps, id).value;
    var bumped := before.(quantity := before.quantity + 1);
    var rest := FilterOut(ps, id);
    assert Increment(ps, id) == Ok(rest + [bumped]) by { IncrementValue(ps, id); }
    assert Find(rest + [bumped], x) == Find(rest, x) by { AppendFresh(rest, bumped, x); }
    assert Find(rest, x) == Find(ps, x) by { FindFilterOut(ps, id, x); }
  }

  /** `increment` of a present id: the item that the search finds comes
      last with its quantity one higher, and a search for any other id
      finds exactly what it found before; dropping the id from the old
      and the new list gives the same list. */
  lemma IncrementPresent(ps: seq<Product>, id: string)
    requires HasId(ps, id)
    ensures Increment(ps, id).Ok?
    ensures var before, after := Find(ps, id).value, Increment(ps, id).value;
      && |after| > 0
      && after[|after| - 1] == before.(quantity := before.quantity + 1)
      && Find(after, id) == Some(before.(quantity := before.quantity + 1))
      && FilterOut(after, id) == FilterOut(ps, id)
      && forall x :: x != id ==> Find(after, x) == Find(ps, x)
  {
    var before := Find(ps, id).value;
    var bumped := before.(quantity := before.quantity + 1);
    var rest := FilterOut(ps, id);
    var after := rest + [bumped];
    assert Increment(ps, id) == Ok(after) by { IncrementValue(ps, id); }
    assert after[|after| - 1] == bumped;
    assert Find(after, id) == Some(bumped) && FilterOut(after, id) == rest by {
      AppendFresh(rest, bumped, id);
    }
    forall x | x != id ensures Find(after, x) == Find(ps, x) {
      IncrementKeepsOthers(ps, id, x);
    }
  }

  /** `increment` with unique ids: the item is moved from position `k` to
      the end with quantity one higher; the length is unchanged. */
  lemma IncrementUnique(ps: seq<Product>, k: int)
    requires UniqueIds(ps) && 0 <= k < |ps|
    ensures Increment(ps, ps[k].id) == Ok(ps[..k] + ps[k + 1..] + [ps[k].(quantity := ps[k].quantity + 1)])
    ensures |Increment(ps, ps[k].id).value| == |ps|
  {
    FindUnique(ps, k);
    FilterOutUnique(ps, k);
  }

  /** `increment` keeps ids unique, whatever the quantities: it drops every
      item with the id and puts one back. */
  lemma IncrementKeepsUnique(ps: seq<Product>, id: string)
    requires UniqueIds(ps)
    ensures Increment(ps, id).Ok? ==> UniqueIds(Increment(ps, id).value)
  {
    if HasId(ps, id) {
      var p := Find(ps, id).value;
      var rest := FilterOut(ps, id);
      assert Increment(ps, id) == Ok(rest + [p.(quantity := p.quantity + 1)]) by { IncrementValue(ps, id); }
      FilterOutKeepsUnique(ps, id);
      AppendKeepsUnique(rest, p.(quantity := p.quantity + 1));
    }
  }

  /** `increment` keeps every quantity at least one, whatever the ids. */
  lemma IncrementKeepsPositive(ps: seq<Product>, id: string)
    requires AllPositive(ps)
    ensures Increment(ps, id).Ok? ==> AllPositive(Increment(ps, id).value)
  {
    if HasId(ps, id) {
      var p := Find(ps, id).value;
      var bumped := p.(quantity := p.quantity + 1);
      var rest := FilterOut(ps, id);
      assert Increment(ps, id) == Ok(rest + [bumped]) by { IncrementValue(ps, id); }
      FilterOutKeepsPositive(ps, id);
      assert p == ps[FindIndex(ps, id)];
      var after := rest + [bumped];
      forall i | 0 <= i < |after| ensures after[i].quantity >= 1 {
        if i < |rest| { assert after[i] == rest[i]; }
      }
    }
  }

  /** `increment` keeps the cart's invariant. */
  lemma IncrementPreservesWellFormed(ps: seq<Product>, id: string)
    requires WellFormed(ps)
    ensures Increment(ps, id).Ok? ==> WellFormed(Increment(ps, id).value)
  {
    IncrementKeepsUnique(ps, id);
    IncrementKeepsPositive(ps, id);
  }

  // ---------------------------------------------------------------------
  // decrement

  /** `decrement` of a present id: the item that the search finds loses one
      unit; at quantity 1 it leaves the cart, otherwise it comes first with
      the lower quantity. Every other id is found as before, and dropping
      the id from the old and the new list gives the same list. */
  lemma DecrementPresent(ps: seq<Product>, id: string)
    requires HasId(ps, id)
    ensures Decrement(ps, id).Ok?
    ensures var before, after := Find(ps, id).value, Decrement(ps, id).value;
      && (before.quantity == 1 ==> !HasId(after, id))
      && (before.quantity != 1 ==>
            |after| > 0 && after[0] == before.(quantity := before.quantity - 1)
            && Find(after, id) == Some(before.(quantity := before.quantity - 1)))
      && FilterOut(after, id) == FilterOut(ps, id)
      && forall x :: x != id ==> Find(after, x) == Find(ps, x)
  {
    var before := Find(ps, id).value;
    var lowered := before.(quantity := before.quantity - 1);
    var rest := FilterOut(ps, id);
    var after := Decrement(ps, id).value;
    if before.quantity == 1 {
      assert after == rest;
      FilterOutAbsent(rest, id);
      forall x | x != id ensures Find(after, x) == Find(ps, x) {
        FindFilterOut(ps, id, x);
      }
    } else {
      assert after == [lowered] + rest;
      PrependFresh(lowered, rest, id);
      forall x | x != id ensures Find(after, x) == Find(ps, x) {
        PrependFresh(lowered, rest, x);
        FindFilterOut(ps, id, x);
      }
    }
  }

  /** `decrement` with unique ids: at quantity 1 the item at position `k`
      is removed and the length drops by one; otherwise it is moved to the
      front with quantity one lower and the length is unchanged. */
  lemma DecrementUnique(ps: seq<Product>, k: int)
    requires UniqueIds(ps) && 0 <= k < |ps|
    ensures Decrement(ps, ps[k].id) == Ok(
      if ps[k].quantity == 1 then ps[..k] + ps[k + 1..]
      else [ps[k].(quantity := ps[k].quantity - 1)] + ps[..k] + ps[k + 1..])
    ensures |Decrement(ps, ps[k].id).value| == if ps[k].quantity == 1 then |ps| - 1 else |ps|
  {
    FindUnique(ps, k);
    FilterOutUnique(ps, k);
    var lowered := ps[k].(quantity := ps[k].quantity - 1);
    assert [lowered] + (ps[..k] + ps[k + 1..]) == [lowered] + ps[..k] + ps[k + 1..];
  }

  /** `decrement` keeps ids unique, whatever the quantities: it drops every
      item with the id and puts at most one back. */
  lemma DecrementKeepsUnique(ps: seq<Product>, id: string)
    requires UniqueIds(ps)
    ensures Decrement(ps, id).Ok? ==> UniqueIds(Decrement(ps, id).value)
  {
    if HasId(ps, id) {
      var p := Find(ps, id).value;
      var lowered := p.(quantity := p.quantity - 1);
      var rest := FilterOut(ps, id);
      assert Decrement(ps, id) == Ok(if p.quantity == 1 then rest else [lowered] + rest) by {
        DecrementValue(ps, id);
      }
      FilterOutKeepsUnique(ps, id);
      if p.quantity != 1 {
        PrependKeepsUnique(lowered, rest);
      }
    }
  }

  /** `decrement` keeps every quantity at least one, whatever the ids: an
      item whose quantity would reach 0 is removed. */
  lemma DecrementKeepsPositive(ps: seq<Product>, id: string)
    requires AllPositive(ps)
    ensures Decrement(ps, id).Ok? ==> AllPositive(Decrement(ps, id).value)
  {
    if HasId(ps, id) {
      var p := Find(ps, id).value;
      var lowered := p.(quantity := p.quantity - 1);
      var rest := FilterOut(ps, id);
      assert Decrement(ps, id) == Ok(if p.quantity == 1 then rest else [lowered] + rest) by {
        DecrementValue(ps, id);
      }
      FilterOutKeepsPositive(ps, id);
      assert p == ps[FindIndex(ps, id)];
      if p.quantity != 1 {
        var after := [lowered] + rest;
        forall i | 0 <= i < |after| ensures after[i].quantity >= 1 {
          if i > 0 { assert after[i] == rest[i - 1]; }
        }
      }
    }
  }

  /** `decrement` keeps the cart's invariant. */
  lemma DecrementPreservesWellFormed(ps: seq<Product>, id: string)
    requires WellFormed(ps)
    ensures Decrement(ps, id).Ok? ==> WellFormed(Decrement(ps, id).value)
  {
    DecrementKeepsUnique(ps, id);
    DecrementKeepsPositive(ps, id);
  }

  // ---------------------------------------------------------------------
  // addToCart

  /** `addToCart` of a product whose id is absent appends exactly one new
      item, with quantity 1, and leaves the existing items as they were. */
  lemma AddToCartFresh(ps: seq<Product>, item: Item)
    requires !HasId(ps, item.id)
    ensures var after := AddToCart(ps, item);
      |after| == |ps| + 1 && after[..|ps|] == ps && after[|ps|].quantity == 1
      && after[|ps|] == Product(item.id, item.title, item.imageUrl, item.price, 1)
  {
    assert (ps + [NewLine(item)])[..|ps|] == ps;
  }

  /** `addToCart` of a product whose id is present is `increment` of that
      id: the existing item's quantity goes up by one, no second item with
      that id appears, and with unique ids the length is unchanged. */
  lemma AddToCartPresent(ps: seq<Product>, item: Item)
    requires HasId(ps, item.id)
    ensures AddToCart(ps, item) == Increment(ps, item.id).value
    ensures Find(AddToCart(ps, item), item.id).value.quantity == Find(ps, item.id).value.quantity + 1
    ensures UniqueIds(ps) ==> |AddToCart(ps, item)| == |ps|
  {
    IncrementPresent(ps, item.id);
    if UniqueIds(ps) {
      var k := FindIndex(ps, item.id);
      IncrementUnique(ps, k);
    }
  }

  /** `addToCart` keeps ids unique, whatever the quantities: it appends
      only an absent id, and otherwise increments. */
  lemma AddToCartKeepsUnique(ps: seq<Product>, item: Item)
    requires UniqueIds(ps)
    ensures UniqueIds(AddToCart(ps, item))
  {
    if HasId(ps, item.id) {
      IncrementKeepsUnique(ps, item.id);
    } else {
      AppendKeepsUnique(ps, NewLine(item));
    }
  }

  /** `addToCart` keeps every quantity at least one, whatever the ids: a
      new item starts at 1. */
  lemma AddToCartKeepsPositive(ps: seq<Product>, item: Item)
    requires AllPositive(ps)
    ensures AllPositive(AddToCart(ps, item))
  {
    if HasId(ps, item.id) {
      IncrementKeepsPositive(ps, item.id);
    } else {
      var after := ps + [NewLine(item)];
      forall i | 0 <= i < |after| ensures after[i].quantity >= 1 {
        if i < |ps| { assert after[i] == ps[i]; }
      }
    }
  }

  /** `addToCart` keeps the cart's invariant. */
  lemma AddToCartPreservesWellFormed(ps: seq<Product>, item: Item)
    requires WellFormed(ps)
    ensures WellFormed(AddToCart(ps, item))
  {
    AddToCartKeepsUnique(ps, item);
    AddToCartKeepsPositive(ps, item);
  }

  // ---------------------------------------------------------------------
  // A session

  /** Add a product to an empty cart, increment it, decrement it twice,
      and a third decrement fails. */
  lemma Session(a: Item)
    ensures var one := NewLine(a);
      && AddToCart([], a) == [one]
      && Increment([one], a.id) == Ok([one.(quantity := 2)])
      && Decrement([one.(quantity := 2)], a.id) == Ok([one])
      && Decrement([one], a.id) == Ok([])
      && Decrement([], a.id) == Err(NotInCart)
  {
    var one, two := NewLine(a), NewLine(a).(quantity := 2);
    FindSingleton(one, a.id);
    FindSingleton(two, a.id);
    FilterOutSingleton(one, a.id);
    FilterOutSingleton(two, a.id);
    assert Find([one], a.id) == Some(one);
    assert FilterOut([one], a.id) == [];
    assert Increment([one], a.id) == Ok([] + [two]);
    assert [] + [two] == [two];
    assert Decrement([two], a.id) == Ok([two.(quantity := 1)] + []);
    assert [two.(quantity := 1)] + [] == [one];
  }
}
