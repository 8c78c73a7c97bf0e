// The cart and its bookkeeping against the ledger: adding a lesson takes a
// space from it, removing an entry gives one back.
module Cart {
  import opened Lessons

  /** The state the cart operations read and change: the ledger and the cart. */
  datatype AppState = AppState(lessons: seq<Lesson>, cart: seq<Lesson>)

  /** Adding the ledger record at position `i` to the cart: when it has a space
      left and no cart entry shares its id, a copy taken before the decrement
      goes to the end of the cart and the record loses one space; otherwise
      nothing changes. */
  function AfterAdd(st: AppState, i: nat): (r: AppState)
    requires i < |st.lessons|
    ensures |r.lessons| == |st.lessons|
    ensures var l := st.lessons[i];
      if l.spaces > 0 && !HasId(st.cart, l.id) then
        && r.cart == st.cart + [l]
        && r.lessons[i] == l.(spaces := l.spaces - 1)
        && r.lessons[i].spaces >= 0
        && (forall k :: 0 <= k < |st.lessons| && k != i ==> r.lessons[k] == st.lessons[k])
      else
        r == st
    ensures UniqueIds(st.cart) ==> UniqueIds(r.cart)
    ensures NonNegative(st.lessons) ==> NonNegative(r.lessons)
  {
    var l := st.lessons[i];
    if l.spaces > 0 && FirstIndex(st.cart, l.id) == -1 then
      AppState(st.lessons[i := l.(spaces := l.spaces - 1)], st.cart + [l])
    else
      st
  }

  /** The ledger side of a removal: the first record with `id`, if any, gets
      one space back and no other record changes. */
  function ReturnSpace(lessons: seq<Lesson>, id: int): (r: seq<Lesson>)
    ensures |r| == |lessons|
    ensures forall k :: 0 <= k < |lessons| && k != FirstIndex(lessons, id) ==> r[k] == lessons[k]
    ensures HasId(lessons, id) ==>
      var j := FirstIndex(lessons, id);
      r[j] == lessons[j].(spaces := lessons[j].spaces + 1)
    ensures NonNegative(lessons) ==> NonNegative(r)
  {
    var j := FirstIndex(lessons, id);
    if j >= 0 then lessons[j := lessons[j].(spaces := lessons[j].spaces + 1)] else lessons
  }

  /** The cart side of a removal: the first entry with `id`, if any, is taken
      out and the others keep their order. */
  function DropFirst(cart: seq<Lesson>, id: int): (r: seq<Lesson>)
    ensures !HasId(cart, id) ==> r == cart
    ensures HasId(cart, id) ==>
      var c := FirstIndex(cart, id);
      |r| == |cart| - 1 && r == cart[..c] + cart[c + 1..]
  {
    var c := FirstIndex(cart, id);
    if c > -1 then cart[..c] + cart[c + 1..] else cart
  }

  /** Removing a cart entry: the ledger gets its space back whether or not the
      cart holds such an entry; then the entry is taken out of the cart. */
  function AfterRemove(st: AppState, item: Lesson): (r: AppState)
    ensures |r.lessons| == |st.lessons|
    ensures |r.cart| == |st.cart| - (if HasId(st.cart, item.id) then 1 else 0)
    ensures NonNegative(st.lessons) ==> NonNegative(r.lessons)
  {
    AppState(ReturnSpace(st.lessons, item.id), DropFirst(st.cart, item.id))
  }

  /** Taking out entry `c` shifts the entries after it down by one. */
  lemma RemoveAtIndex(s: seq<Lesson>, c: nat, r: seq<Lesson>)
    requires c < |s| && r == s[..c] + s[c + 1..]
    ensures |r| == |s| - 1
    ensures forall k :: 0 <= k < |r| ==> r[k] == s[if k < c then k else k + 1]
  {
  }

  /** Taking an entry out of a cart of distinct ids keeps them distinct. */
  lemma RemoveAtUnique(s: seq<Lesson>, c: nat)
    requires c < |s| && UniqueIds(s)
    ensures UniqueIds(s[..c] + s[c + 1..])
  {
    var r := s[..c] + s[c + 1..];
    RemoveAtIndex(s, c, r);
    forall i, j | 0 <= i < j < |r| ensures r[i].id != r[j].id {
      var i', j' := if i < c then i else i + 1, if j < c then j else j + 1;
      assert r[i] == s[i'] && r[j] == s[j'];
    }
  }

  /** In a cart of distinct ids, taking out entry `c` leaves exactly the
      entries whose id differs from its id. */
  lemma RemoveAtMembers(s: seq<Lesson>, c: nat)
    requires c < |s| && UniqueIds(s)
    ensures forall e :: e in s[..c] + s[c + 1..] <==> e in s && e.id != s[c].id
  {
    var r := s[..c] + s[c + 1..];
    RemoveAtIndex(s, c, r);
    forall e | e in r ensures e in s && e.id != s[c].id {
      var k :| 0 <= k < |r| && r[k] == e;
      assert s[if k < c then k else k + 1] == e;
    }
    forall e | e in s && e.id != s[c].id ensures e in r {
      var k :| 0 <= k < |s| && s[k] == e;
      assert r[if k < c then k else k - 1] == e;
    }
  }

  /** On a cart of distinct ids, removal keeps the ids distinct and takes out
      exactly the entries with the item's id. */
  lemma RemoveDropsId(st: AppState, item: Lesson)
    requires UniqueIds(st.cart)
    ensures UniqueIds(AfterRemove(st, item).cart)
    ensures forall e :: e in AfterRemove(st, item).cart <==> e in st.cart && e.id != item.id
  {
    var r := AfterRemove(st, item).cart;
    if HasId(st.cart, item.id) {
      var c := FirstIndex(st.cart, item.id);
      assert r == st.cart[..c] + st.cart[c + 1..];
      RemoveAtUnique(st.cart, c);
      RemoveAtMembers(st.cart, c);
    } else {
      assert r == st.cart;
    }
  }

  /** Adding a lesson takes exactly one space from the ledger when, and only
      when, it puts exactly one entry into the cart. */
  lemma AddSpacesAccount(st: AppState, i: nat)
    requires i < |st.lessons|
    ensures var added := st.lessons[i].spaces > 0 && !HasId(st.cart, st.lessons[i].id);
      && TotalSpaces(AfterAdd(st, i).lessons) == TotalSpaces(st.lessons) - (if added then 1 else 0)
      && |AfterAdd(st, i).cart| == |st.cart| + (if added then 1 else 0)
  {
    var l := st.lessons[i];
    if l.spaces > 0 && !HasId(st.cart, l.id) {
      TotalSpacesUpdate(st.lessons, i, l.spaces - 1);
    }
  }

  /** Removing gives a space back whenever the ledger knows the id, and takes an
      entry out whenever the cart holds one: the two only balance when both hold. */
  lemma RemoveSpacesAccount(st: AppState, item: Lesson)
    ensures TotalSpaces(AfterRemove(st, item).lessons)
            == TotalSpaces(st.lessons) + (if HasId(st.lessons, item.id) then 1 else 0)
    ensures |AfterRemove(st, item).cart| == |st.cart| - (if HasId(st.cart, item.id) then 1 else 0)
  {
    var j := FirstIndex(st.lessons, item.id);
    if j >= 0 {
      TotalSpacesUpdate(st.lessons, j, st.lessons[j].spaces + 1);
      assert AfterRemove(st, item).lessons == st.lessons[j := st.lessons[j].(spaces := st.lessons[j].spaces + 1)];
    }
  }

  /** Giving a space back to the record that just lost one restores the
      ledger, when that record is the first with its id. */
  lemma ReturnSpaceUndoesTake(lessons: seq<Lesson>, i: nat)
    requires i < |lessons| && FirstIndex(lessons, lessons[i].id) == i
    ensures var l := lessons[i];
      ReturnSpace(lessons[i := l.(spaces := l.spaces - 1)], l.id) == lessons
  {
    var l := lessons[i];
    var down := lessons[i := l.(spaces := l.spaces - 1)];
    assert down[i].id == l.id;
    assert FirstIndex(down, l.id) == i;
    assert down[i := down[i].(spaces := down[i].spaces + 1)] == lessons;
  }

  /** Taking out the first entry with the id of an entry just appended, when
      no earlier entry had that id, restores the cart. */
  lemma DropFirstUndoesAppend(cart: seq<Lesson>, l: Lesson)
    requires !HasId(cart, l.id)
    ensures DropFirst(cart + [l], l.id) == cart
  {
    var longer := cart + [l];
    assert longer[|cart|].id == l.id;
    var c := FirstIndex(longer, l.id);
    assert c == |cart|;
    assert longer[..c] == cart && longer[c + 1..] == [];
  }

  /** Adding a lesson and then removing the entry it made restores the ledger
      and the cart, provided the lesson is the ledger's first record with its id
      (always so when the ledger's ids are distinct). */
  lemma AddThenRemoveRestores(st: AppState, i: nat)
    requires i < |st.lessons| && FirstIndex(st.lessons, st.lessons[i].id) == i
    requires st.lessons[i].spaces > 0 && !HasId(st.cart, st.lessons[i].id)
    ensures AfterRemove(AfterAdd(st, i), st.lessons[i]) == st
  {
    var l := st.lessons[i];
    assert AfterAdd(st, i) == AppState(st.lessons[i := l.(spaces := l.spaces - 1)], st.cart + [l]);
    ReturnSpaceUndoesTake(st.lessons, i);
    DropFirstUndoesAppend(st.cart, l);
  }

  /** A second add of the same lesson changes nothing: adding is idempotent. */
  lemma AddIdempotent(st: AppState, i: nat)
    requires i < |st.lessons|
    ensures AfterAdd(AfterAdd(st, i), i) == AfterAdd(st, i)
  {
    var l := st.lessons[i];
    if l.spaces > 0 && !HasId(st.cart, l.id) {
      var mid := AfterAdd(st, i);
      assert mid.cart[|st.cart|].id == l.id;
    }
  }

  /** The order total: `cart.reduce((total, item) => total + item.price, 0)`,
      a left fold over the entries. */
  function TotalPrice(cart: seq<Lesson>): (r: int)
    ensures (forall k :: 0 <= k < |cart| ==> cart[k].price >= 0) ==> r >= 0
  {
    if cart == [] then 0 else TotalPrice(cart[..|cart| - 1]) + cart[|cart| - 1].price
  }

  /** The total of two carts end to end is the sum of their totals. */
  lemma {:induction false} TotalPriceAppend(a: seq<Lesson>, b: seq<Lesson>)
    ensures TotalPrice(a + b) == TotalPrice(a) + TotalPrice(b)
    decreases |b|
  {
    if b == [] {
      assert a + b == a;
    } else {
      TotalPriceAppend(a, b[..|b| - 1]);
      assert (a + b)[..|a + b| - 1] == a + b[..|b| - 1];
    }
  }

  /** One entry more at the end adds its price. */
  lemma TotalPriceSnoc(a: seq<Lesson>, x: Lesson)
    ensures TotalPrice(a + [x]) == TotalPrice(a) + x.price
  {
    assert (a + [x])[..|a|] == a;
  }

  /** A cart is its entries up to `c`, entry `c`, and the entries after it. */
  lemma SplitAt(cart: seq<Lesson>, c: nat)
    requires c < |cart|
    ensures (cart[..c] + [cart[c]]) + cart[c + 1..] == cart
  {
  }

  /** Taking entry `c` out of a cart lowers its total by that entry's price. */
  lemma TotalPriceRemoveAt(cart: seq<Lesson>, c: nat)
    requires c < |cart|
    ensures TotalPrice(cart[..c] + cart[c + 1..]) == TotalPrice(cart) - cart[c].price
  {
    var front, back := cart[..c], cart[c + 1..];
    SplitAt(cart, c);
    TotalPriceAppend(front + [cart[c]], back);
    TotalPriceSnoc(front, cart[c]);
    TotalPriceAppend(front, back);
  }

  /** A successful add raises the total by the lesson's price; otherwise the
      total stays. */
  lemma AddRaisesTotal(st: AppState, i: nat)
    requires i < |st.lessons|
    ensures var l := st.lessons[i];
      TotalPrice(AfterAdd(st, i).cart)
      == TotalPrice(st.cart) + (if l.spaces > 0 && !HasId(st.cart, l.id) then l.price else 0)
  {
    var l := st.lessons[i];
    if l.spaces > 0 && !HasId(st.cart, l.id) {
      assert AfterAdd(st, i).cart == st.cart + [l];
      TotalPriceSnoc(st.cart, l);
    }
  }

  /** A removal lowers the total by the price recorded in the entry taken out,
      and leaves it when the cart holds no entry with the id. */
  lemma RemoveLowersTotal(st: AppState, item: Lesson)
    ensures TotalPrice(AfterRemove(st, item).cart)
      == TotalPrice(st.cart) - (if HasId(st.cart, item.id) then st.cart[FirstIndex(st.cart, item.id)].price else 0)
  {
    if HasId(st.cart, item.id) {
      var c := FirstIndex(st.cart, item.id);
      assert AfterRemove(st, item).cart == st.cart[..c] + st.cart[c + 1..];
      TotalPriceRemoveAt(st.cart, c);
    }
  }

  /** What the user does to the cart: press "Add to cart" on the ledger record
      at `index`, or remove a cart entry. */
  datatype Action = AddLesson(index: nat) | RemoveItem(item: Lesson)

  /** Every add in `actions` names a record of a ledger of `n` records. */
  predicate AddsInRange(actions: seq<Action>, n: nat) {
    forall k :: 0 <= k < |actions| && actions[k].AddLesson? ==> actions[k].index < n
  }

  function Step(st: AppState, a: Action): AppState
    requires a.AddLesson? ==> a.index < |st.lessons|
  {
    match a
    case AddLesson(i) => AfterAdd(st, i)
    case RemoveItem(item) => AfterRemove(st, item)
  }

  /** The state after a sequence of adds and removes. */
  function Run(st: AppState, actions: seq<Action>): (r: AppState)
    requires AddsInRange(actions, |st.lessons|)
    ensures |r.lessons| == |st.lessons|
    decreases |actions|
  {
    if actions == [] then st
    else Run(Step(st, actions[0]), actions[1..])
  }

  /** Across any sequence of adds and removes the cart's ids stay distinct and no
      record's spaces go below zero. */
  lemma {:induction false} RunKeepsInvariants(st: AppState, actions: seq<Action>)
    requires AddsInRange(actions, |st.lessons|)
    requires UniqueIds(st.cart) && NonNegative(st.lessons)
    ensures UniqueIds(Run(st, actions).cart) && NonNegative(Run(st, actions).lessons)
    decreases |actions|
  {
    if actions != [] {
      var next := Step(st, actions[0]);
      if actions[0].RemoveItem? {
        RemoveDropsId(st, actions[0].item);
      }
      assert AddsInRange(actions[1..], |next.lessons|) by {
        forall k | 0 <= k < |actions[1..]| && actions[1..][k].AddLesson?
          ensures actions[1..][k].index < |next.lessons|
        {
          assert actions[1..][k] == actions[k + 1];
        }
      }
      RunKeepsInvariants(next, actions[1..]);
    }
  }
}
