// Checkout: the order POST, the per-entry capacity PUTs, and what the cart and
// the ledger look like afterwards, with the network as given answers.
module Checkout {
  import opened Lessons
  import opened Cart

  datatype Option<T> = None | Some(value: T)

  /** How a `fetch` ends: a response with `ok` set (and its decoded body), a
      response without it, or a rejected promise. */
  datatype Response<T> = Ok(body: T) | NotOk | Rejected

  /** The order the checkout form emits. */
  datatype OrderData = OrderData(name: string, phone: string, lessons: seq<Lesson>, total: int)

  /** The requests the front end sends to its back end. */
  datatype Request =
    | GetLessons                          // GET /lessons
    | GetSearch(query: string)            // GET /search?q=...
    | PostOrder(order: OrderData)         // POST /orders
    | PutSpaces(id: int, spaces: int)     // PUT /lessons/{id} with {spaces}

  /** The ledger a catalogue load leaves: the loaded records, or the fixed
      fallback list when the load is not ok or rejected. */
  function LoadedLessons(response: Response<seq<Lesson>>): (r: seq<Lesson>)
    ensures !response.Ok? ==> |r| == 12 && UniqueIds(r)
  {
    if response.Ok? then response.body else FallbackLessons()
  }

  /** The PUT issued for one cart entry: one carrying the current spaces of the
      first ledger record with the entry's id, or none when the ledger has no
      such record. */
  function PutFor(lessons: seq<Lesson>, entry: Lesson): (r: seq<Request>)
    ensures |r| <= 1
    ensures r != [] <==> HasId(lessons, entry.id)
    ensures r != [] ==> r[0].PutSpaces? && r[0].id == entry.id
  {
    var j := FirstIndex(lessons, entry.id);
    if j >= 0 then [PutSpaces(entry.id, lessons[j].spaces)] else []
  }

  /** The PUTs of a checkout in which no PUT is rejected, in cart order. */
  function AllPuts(lessons: seq<Lesson>, cart: seq<Lesson>): seq<Request>
    decreases |cart|
  {
    if cart == [] then [] else PutFor(lessons, cart[0]) + AllPuts(lessons, cart[1..])
  }

  /** `p` is a PUT for an id of the cart that the ledger knows, carrying the
      spaces the ledger's first record with that id has now. */
  predicate PutMatchesLedger(lessons: seq<Lesson>, cart: seq<Lesson>, p: Request) {
    && p.PutSpaces?
    && HasId(cart, p.id)
    && FirstIndex(lessons, p.id) >= 0
    && p.spaces == lessons[FirstIndex(lessons, p.id)].spaces
  }

  /** There is at most one PUT per cart entry, and each one names an entry the
      ledger knows and carries that record's current spaces. */
  lemma {:induction false} AllPutsSound(lessons: seq<Lesson>, cart: seq<Lesson>)
    ensures |AllPuts(lessons, cart)| <= |cart|
    ensures forall k :: 0 <= k < |AllPuts(lessons, cart)| ==>
      PutMatchesLedger(lessons, cart, AllPuts(lessons, cart)[k])
    decreases |cart|
  {
    if cart != [] {
      var head, rest := PutFor(lessons, cart[0]), AllPuts(lessons, cart[1..]);
      var all := AllPuts(lessons, cart);
      AllPutsSound(lessons, cart[1..]);
      assert all == head + rest;
      assert HasId(cart, cart[0].id);
      forall k | 0 <= k < |all| ensures PutMatchesLedger(lessons, cart, all[k]) {
        if k >= |head| {
          var p := rest[k - |head|];
          assert all[k] == p;
          var m :| 0 <= m < |cart[1..]| && cart[1..][m].id == p.id;
          assert cart[m + 1].id == p.id;
        }
      }
    }
  }

  /** When the ledger knows every cart entry, PUT `k` is for entry `k`. */
  lemma {:induction false} AllPutsComplete(lessons: seq<Lesson>, cart: seq<Lesson>)
    requires forall k :: 0 <= k < |cart| ==> HasId(lessons, cart[k].id)
    ensures |AllPuts(lessons, cart)| == |cart|
    ensures forall k :: 0 <= k < |cart| ==>
      AllPuts(lessons, cart)[k] == PutSpaces(cart[k].id, lessons[FirstIndex(lessons, cart[k].id)].spaces)
    decreases |cart|
  {
    if cart != [] {
      var rest := AllPuts(lessons, cart[1..]);
      forall k | 0 <= k < |cart[1..]| ensures HasId(lessons, cart[1..][k].id) {
        assert cart[1..][k] == cart[k + 1];
      }
      AllPutsComplete(lessons, cart[1..]);
      assert HasId(lessons, cart[0].id);
      var all := AllPuts(lessons, cart);
      assert all == [all[0]] + rest;
      forall k | 1 <= k < |cart| ensures all[k] == rest[k - 1] && cart[k] == cart[1..][k - 1] {
      }
    }
  }

  /** No PUT the checkout issues is rejected: `puts[k]` answers the PUT for
      cart entry `k`, and only entries the ledger knows get one. */
  predicate NoRejectedPut(lessons: seq<Lesson>, cart: seq<Lesson>, puts: seq<Response<()>>)
    requires |puts| == |cart|
  {
    forall k :: 0 <= k < |cart| && HasId(lessons, cart[k].id) ==> !puts[k].Rejected?
  }

  /** The PUTs issued and whether the loop ran to its end. */
  datatype SyncResult = SyncResult(issued: seq<Request>, completed: bool)

  /** The PUT loop: one request per cart entry the ledger knows, in cart order,
      each awaited; a not-ok answer is ignored, a rejected one throws out of
      the loop. */
  function Sync(lessons: seq<Lesson>, cart: seq<Lesson>, puts: seq<Response<()>>): SyncResult
    requires |puts| == |cart|
    decreases |cart|
  {
    if cart == [] then SyncResult([], true)
    else
      var j := FirstIndex(lessons, cart[0].id);
      var rest := Sync(lessons, cart[1..], puts[1..]);
      if j < 0 then rest
      else if puts[0].Rejected? then SyncResult([PutSpaces(cart[0].id, lessons[j].spaces)], false)
      else SyncResult([PutSpaces(cart[0].id, lessons[j].spaces)] + rest.issued, rest.completed)
  }

  /** The position of the first cart entry whose PUT is rejected, or `|cart|`
      when there is none. Only entries the ledger knows send a PUT. */
  function FirstRejected(lessons: seq<Lesson>, cart: seq<Lesson>, puts: seq<Response<()>>): (f: nat)
    requires |puts| == |cart|
    ensures f <= |cart|
    ensures f < |cart| ==> HasId(lessons, cart[f].id) && puts[f].Rejected?
    ensures forall k :: 0 <= k < f && HasId(lessons, cart[k].id) ==> !puts[k].Rejected?
    decreases |cart|
  {
    if cart == [] then 0
    else if HasId(lessons, cart[0].id) && puts[0].Rejected? then 0
    else
      var f := FirstRejected(lessons, cart[1..], puts[1..]);
      assert forall k :: 1 <= k <= f ==> cart[1..][k - 1] == cart[k] && puts[1..][k - 1] == puts[k];
      1 + f
  }

  /** The loop stops at the first rejected PUT: it runs to its end exactly when
      there is none, and otherwise it has sent exactly the PUTs of the entries
      up to and including that one, and none after it. */
  lemma {:induction false} SyncStopsAtFirstRejected(lessons: seq<Lesson>, cart: seq<Lesson>, puts: seq<Response<()>>)
    requires |puts| == |cart|
    ensures var r, f := Sync(lessons, cart, puts), FirstRejected(lessons, cart, puts);
      && (r.completed <==> f == |cart|)
      && (!r.completed ==> r.issued == AllPuts(lessons, cart[..f + 1]))
    decreases |cart|
  {
    if cart != [] {
      var f, f' := FirstRejected(lessons, cart, puts), FirstRejected(lessons, cart[1..], puts[1..]);
      SyncStopsAtFirstRejected(lessons, cart[1..], puts[1..]);
      if HasId(lessons, cart[0].id) && puts[0].Rejected? {
        assert cart[..1][1..] == [];
      } else if f < |cart| {
        var front := cart[..f + 1];
        assert front[0] == cart[0] && front[1..] == cart[1..][..f' + 1];
      }
    }
  }

  /** The loop runs to its end exactly when no PUT is rejected, and then it has
      sent all the PUTs; otherwise it has sent a non-empty prefix of them. */
  lemma {:induction false} SyncSendsPrefix(lessons: seq<Lesson>, cart: seq<Lesson>, puts: seq<Response<()>>)
    requires |puts| == |cart|
    ensures var r := Sync(lessons, cart, puts);
      && (r.completed <==> NoRejectedPut(lessons, cart, puts))
      && (r.completed ==> r.issued == AllPuts(lessons, cart))
      && (!r.completed ==> 0 < |r.issued| <= |AllPuts(lessons, cart)|
                           && r.issued == AllPuts(lessons, cart)[..|r.issued|])
    decreases |cart|
  {
    if cart != [] {
      var j := FirstIndex(lessons, cart[0].id);
      var rest := Sync(lessons, cart[1..], puts[1..]);
      var all, restAll := AllPuts(lessons, cart), AllPuts(lessons, cart[1..]);
      assert all == PutFor(lessons, cart[0]) + restAll;
      SyncSendsPrefix(lessons, cart[1..], puts[1..]);
      assert NoRejectedPut(lessons, cart, puts) <==>
             (j >= 0 ==> !puts[0].Rejected?) && NoRejectedPut(lessons, cart[1..], puts[1..]) by {
        if (j >= 0 ==> !puts[0].Rejected?) && NoRejectedPut(lessons, cart[1..], puts[1..]) {
          forall k | 0 <= k < |cart| && HasId(lessons, cart[k].id) ensures !puts[k].Rejected? {
            if k > 0 {
              assert cart[1..][k - 1] == cart[k];
            }
          }
        }
      }
      if j >= 0 {
        var put := PutSpaces(cart[0].id, lessons[j].spaces);
        assert all == [put] + restAll;
        if !puts[0].Rejected? && !rest.completed {
          assert all[..1 + |rest.issued|] == [put] + restAll[..|rest.issued|];
        }
      }
    }
  }

  /** The loop runs to its end exactly when no PUT is rejected, and then it has
      sent all the PUTs. Otherwise it has sent a non-empty prefix of them: the
      PUTs of the entries up to and including the first one whose PUT is
      rejected, and none after it. */
  lemma SyncMeetsPuts(lessons: seq<Lesson>, cart: seq<Lesson>, puts: seq<Response<()>>)
    requires |puts| == |cart|
    ensures var r, f := Sync(lessons, cart, puts), FirstRejected(lessons, cart, puts);
      && (r.completed <==> NoRejectedPut(lessons, cart, puts))
      && (r.completed <==> f == |cart|)
      && (r.completed ==> r.issued == AllPuts(lessons, cart))
      && (!r.completed ==> 0 < |r.issued| <= |AllPuts(lessons, cart)|
                           && r.issued == AllPuts(lessons, cart)[..|r.issued|]
                           && r.issued == AllPuts(lessons, cart[..f + 1]))
  {
    SyncSendsPrefix(lessons, cart, puts);
    SyncStopsAtFirstRejected(lessons, cart, puts);
  }

  /** One step of the PUT loop, at cart entry `k`. */
  lemma SyncStep(lessons: seq<Lesson>, cart: seq<Lesson>, puts: seq<Response<()>>, k: nat)
    requires |puts| == |cart| && k < |cart|
    ensures var j := FirstIndex(lessons, cart[k].id);
      var rest := Sync(lessons, cart[k + 1..], puts[k + 1..]);
      Sync(lessons, cart[k..], puts[k..]) ==
        if j < 0 then rest
        else if puts[k].Rejected? then SyncResult([PutSpaces(cart[k].id, lessons[j].spaces)], false)
        else SyncResult([PutSpaces(cart[k].id, lessons[j].spaces)] + rest.issued, rest.completed)
  {
    assert cart[k..][0] == cart[k] && cart[k..][1..] == cart[k + 1..];
    assert puts[k..][0] == puts[k] && puts[k..][1..] == puts[k + 1..];
  }

  /** The requests sent and the state left by one checkout. */
  datatype CheckoutResult = CheckoutResult(trace: seq<Request>, after: AppState)

  /** Checkout of `order` against state `st`, with `post` answering the POST,
      `puts[k]` the PUT for cart entry `k` and `reload` the closing catalogue load. */
  function RunCheckout(st: AppState, order: OrderData, post: Response<()>,
                       puts: seq<Response<()>>, reload: Response<seq<Lesson>>): (r: CheckoutResult)
    requires |puts| == |st.cart|
    ensures |r.trace| >= 1 && r.trace[0] == PostOrder(order)
    ensures r.after == st || r.after.cart == []
  {
    if !post.Ok? then CheckoutResult([PostOrder(order)], st)
    else
      var s := Sync(st.lessons, st.cart, puts);
      if s.completed then
        CheckoutResult([PostOrder(order)] + s.issued + [GetLessons], AppState(LoadedLessons(reload), []))
      else
        CheckoutResult([PostOrder(order)] + s.issued, st)
  }

  /** The outcomes of a checkout: the POST always goes first; a POST that is not
      ok or is rejected ends it with nothing changed; after an ok POST either
      every PUT goes out, the cart is emptied and the catalogue reloaded, or a
      rejected PUT ends the checkout: the PUTs after it are never sent, there is
      no reload, and the state stays as it was. The cart is never cleared in
      part. */
  lemma RunCheckoutOutcomes(st: AppState, order: OrderData, post: Response<()>,
                            puts: seq<Response<()>>, reload: Response<seq<Lesson>>)
    requires |puts| == |st.cart|
    ensures var r := RunCheckout(st, order, post, puts, reload);
      && |r.trace| >= 1 && r.trace[0] == PostOrder(order)
      && (!post.Ok? ==> r.trace == [PostOrder(order)] && r.after == st)
      && (post.Ok? && NoRejectedPut(st.lessons, st.cart, puts) ==>
           && r.trace == [PostOrder(order)] + AllPuts(st.lessons, st.cart) + [GetLessons]
           && r.after == AppState(LoadedLessons(reload), []))
      && (post.Ok? && !NoRejectedPut(st.lessons, st.cart, puts) ==>
           && r.after == st
           && 1 < |r.trace| <= 1 + |AllPuts(st.lessons, st.cart)|
           && r.trace[1..] == AllPuts(st.lessons, st.cart)[..|r.trace| - 1]
           && r.trace[1..] == AllPuts(st.lessons, st.cart[..FirstRejected(st.lessons, st.cart, puts) + 1]))
      && (r.after.cart == [] || r.after == st)
  {
    SyncMeetsPuts(st.lessons, st.cart, puts);
  }

  /** A PUT is sent only after the POST of the order came back ok. */
  lemma NoPutWithoutOrder(st: AppState, order: OrderData, post: Response<()>,
                          puts: seq<Response<()>>, reload: Response<seq<Lesson>>, k: nat)
    requires |puts| == |st.cart|
    requires k < |RunCheckout(st, order, post, puts, reload).trace|
    requires RunCheckout(st, order, post, puts, reload).trace[k].PutSpaces?
    ensures post.Ok?
  {
    RunCheckoutOutcomes(st, order, post, puts, reload);
  }

  /** When every cart entry is in the ledger and no PUT is rejected, entry `k`
      gets exactly one PUT, at position `k + 1` of the trace, carrying the
      ledger's current spaces for it. */
  lemma OnePutPerEntry(st: AppState, order: OrderData, puts: seq<Response<()>>,
                       reload: Response<seq<Lesson>>, k: nat)
    requires |puts| == |st.cart| && k < |st.cart|
    requires forall m :: 0 <= m < |st.cart| ==> HasId(st.lessons, st.cart[m].id)
    requires NoRejectedPut(st.lessons, st.cart, puts)
    ensures var t := RunCheckout(st, order, Ok(()), puts, reload).trace;
      && |t| == |st.cart| + 2
      && t[k + 1] == PutSpaces(st.cart[k].id, st.lessons[FirstIndex(st.lessons, st.cart[k].id)].spaces)
  {
    var all := AllPuts(st.lessons, st.cart);
    AllPutsComplete(st.lessons, st.cart);
    RunCheckoutOutcomes(st, order, Ok(()), puts, reload);
    var t := RunCheckout(st, order, Ok(()), puts, reload).trace;
    assert t[k + 1] == all[k];
  }
}
