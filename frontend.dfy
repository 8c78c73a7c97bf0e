// The two stateful parts of the front end: the root application, which owns
// the ledger and the cart, and the checkout form, which owns the customer's
// fields and their validity flags.
module Frontend {
  import opened Lessons
  import opened Validation
  import opened Catalog
  import opened Cart
  import opened Checkout

  /** The PUT loop of a checkout: for each cart entry in turn, the spaces of
      the ledger's first record with its id are sent and the answer awaited; a
      not-ok answer is passed over, a rejected one ends the loop. Returns the
      PUTs sent and whether the loop ran to its end. */
  method SendPuts(lessons: seq<Lesson>, cart: seq<Lesson>, puts: seq<Response<()>>)
    returns (sent: seq<Request>, completed: bool)
    requires |puts| == |cart|
    ensures SyncResult(sent, completed) == Sync(lessons, cart, puts)
  {
    sent := [];
    var k := 0;
    while k < |cart|
      invariant 0 <= k <= |cart|
      invariant var s := Sync(lessons, cart[k..], puts[k..]);
        Sync(lessons, cart, puts) == SyncResult(sent + s.issued, s.completed)
    {
      SyncStep(lessons, cart, puts, k);
      ghost var rest := Sync(lessons, cart[k + 1..], puts[k + 1..]);
      var original := FirstIndex(lessons, cart[k].id);
      if original >= 0 {
        var put := PutSpaces(cart[k].id, lessons[original].spaces);
        if puts[k].Rejected? {
          sent := sent + [put];
          return sent, false;
        }
        assert sent + ([put] + rest.issued) == (sent + [put]) + rest.issued;
        sent := sent + [put];
      }
      k := k + 1;
    }
    assert cart[k..] == [] && puts[k..] == [];
    return sent, true;
  }

  /** The checkout form component. */
  class CheckoutForm {
    var name: string
    var phone: string
    var nameValid: bool
    var phoneValid: bool

    /** Both flags hold the result of checking the current field. */
    predicate FlagsCurrent()
      reads this
    {
      nameValid == ValidName(name) && phoneValid == ValidPhone(phone)
    }

    /** The component's initial data: empty fields, both flags down, which is
        what the checks say of empty fields. */
    constructor ()
      ensures name == "" && phone == "" && !nameValid && !phoneValid
      ensures FlagsCurrent()
    {
      name, phone := "", "";
      nameValid, phoneValid := false, false;
    }

    method ValidateName()
      modifies this`nameValid
      ensures nameValid == ValidName(name)
    {
      nameValid := ValidName(name);
    }

    method ValidatePhone()
      modifies this`phoneValid
      ensures phoneValid == ValidPhone(phone)
    {
      phoneValid := ValidPhone(phone);
    }

    /** An input event on the name field: the bound field takes the new text,
        then the name check runs. */
    method OnNameInput(text: string)
      modifies this`name, this`nameValid
      ensures name == text && nameValid == ValidName(text)
      ensures old(FlagsCurrent()) ==> FlagsCurrent()
    {
      name := text;
      ValidateName();
    }

    /** An input event on the phone field. */
    method OnPhoneInput(text: string)
      modifies this`phone, this`phoneValid
      ensures phone == text && phoneValid == ValidPhone(text)
      ensures old(FlagsCurrent()) ==> FlagsCurrent()
    {
      phone := text;
      ValidatePhone();
    }

    /** Submitting the form: the order is emitted only when both flags are up,
        and it carries the fields, the cart and the cart's total. */
    method HandleCheckout(cart: seq<Lesson>) returns (emitted: Option<OrderData>)
      ensures emitted.Some? <==> nameValid && phoneValid
      ensures emitted.Some? ==>
        && emitted.value.name == name && emitted.value.phone == phone
        && emitted.value.lessons == cart
        && emitted.value.total == TotalPrice(cart)
      ensures FlagsCurrent() && emitted.Some? ==> ValidName(name) && ValidPhone(phone)
    {
      if nameValid && phoneValid {
        emitted := Some(OrderData(name, phone, cart, TotalPrice(cart)));
      } else {
        emitted := None;
      }
    }
  }

  /** The root application. */
  class App {
    var lessons: seq<Lesson>
    var cart: seq<Lesson>
    var searchQuery: string
    var sortBy: SortField
    var sortOrder: SortOrder

    /** The root's initial data. */
    constructor ()
      ensures lessons == [] && cart == [] && searchQuery == ""
      ensures sortBy == Subject && sortOrder == Asc
    {
      lessons, cart, searchQuery := [], [], "";
      sortBy, sortOrder := Subject, Asc;
    }

    function State(): AppState
      reads this
    {
      AppState(lessons, cart)
    }

    /** The catalogue view: a sorted copy of the ledger. */
    function FilteredLessons(): (r: seq<Lesson>)
      reads this
      ensures multiset(r) == multiset(lessons)
      ensures Ordered(r, sortBy, sortOrder)
    {
      SortLessons(lessons, sortBy, sortOrder)
    }

    /** Loading the catalogue replaces the ledger wholesale: with the records
        received, or with the fallback list when the response is not ok or the
        request is rejected. */
    method LoadLessons(response: Response<seq<Lesson>>)
      modifies this`lessons
      ensures lessons == LoadedLessons(response)
    {
      match response
      case Ok(items) =>
        lessons := items;
      case NotOk =>
        lessons := FallbackLessons();
      case Rejected =>
        lessons := FallbackLessons();
    }

    /** The search that runs once the typing pauses: an empty trimmed query
        reloads the catalogue; otherwise the trimmed query is sent and an ok
        answer replaces the ledger, while a not-ok or rejected one leaves it. */
    method SearchLessons(search: Response<seq<Lesson>>, reload: Response<seq<Lesson>>)
      returns (sent: Request)
      modifies this`lessons
      ensures Trim(searchQuery) == [] ==> sent == GetLessons && lessons == LoadedLessons(reload)
      ensures Trim(searchQuery) != [] ==>
        && sent == GetSearch(Trim(searchQuery))
        && lessons == (if search.Ok? then search.body else old(lessons))
    {
      var q := Trim(searchQuery);
      if q == [] {
        sent := GetLessons;
        LoadLessons(reload);
        return;
      }
      sent := GetSearch(q);
      if search.Ok? {
        lessons := search.body;
      }
    }

    /** "Add to cart" on the ledger record at `index`. */
    method AddToCart(index: nat)
      requires index < |lessons|
      modifies this`lessons, this`cart
      ensures State() == AfterAdd(old(State()), index)
    {
      var lesson := lessons[index];
      if lesson.spaces > 0 {
        var existing := FirstIndex(cart, lesson.id);
        if existing >= 0 {
          return;
        }
        cart := cart + [lesson];
        lessons := lessons[index := lesson.(spaces := lesson.spaces - 1)];
      }
    }

    /** Removing the cart entry `item`. */
    method RemoveFromCart(item: Lesson)
      modifies this`lessons, this`cart
      ensures State() == AfterRemove(old(State()), item)
    {
      var original := FirstIndex(lessons, item.id);
      if original >= 0 {
        lessons := lessons[original := lessons[original].(spaces := lessons[original].spaces + 1)];
      }
      var index := FirstIndex(cart, item.id);
      if index > -1 {
        cart := cart[..index] + cart[index + 1..];
      }
    }

    /** Placing `order`: POST it; on an ok answer PUT each cart entry's current
        ledger spaces, one at a time, then clear the cart and reload the
        catalogue. A not-ok or rejected POST, or a rejected PUT, ends the
        checkout where it is. Returns the requests sent, in order. */
    method ProcessCheckout(order: OrderData, post: Response<()>,
                           puts: seq<Response<()>>, reload: Response<seq<Lesson>>)
      returns (trace: seq<Request>)
      requires |puts| == |cart|
      modifies this`lessons, this`cart
      ensures CheckoutResult(trace, State()) == RunCheckout(old(State()), order, post, puts, reload)
    {
      trace := [PostOrder(order)];
      if !post.Ok? {
        return;
      }
      var sent, completed := SendPuts(lessons, cart, puts);
      trace := trace + sent;
      if !completed {
        return;
      }
      cart := [];
      trace := trace + [GetLessons];
      LoadLessons(reload);
    }
  }
}
