// The catalogue view: the ledger copied and sorted by the chosen field and
// direction, never changing the ledger itself.
module Catalog {
  import opened Lessons

  /** The fields the view can sort by. */
  datatype SortField = Subject | Location | Price | Spaces

  /** `sortOrder === 'asc'`, or any other setting, which sorts descending. */
  datatype SortOrder = Asc | Desc

  /** A sort key: `price` and `spaces` compare as numbers, the other fields as text. */
  datatype Key = Num(n: int) | Text(t: string)

  /** `a[this.sortBy]`, with `price` and `spaces` taken as numbers. */
  function KeyOf(l: Lesson, f: SortField): (k: Key)
    ensures k.Num? <==> f == Price || f == Spaces
  {
    match f
    case Subject => Text(l.subject)
    case Location => Text(l.location)
    case Price => Num(l.price)
    case Spaces => Num(l.spaces)
  }

  /** JavaScript's `<` on two strings: character by character, a proper prefix first. */
  predicate StrLess(a: string, b: string)
    decreases |a|
  {
    if |b| == 0 then false
    else if |a| == 0 then true
    else if a[0] != b[0] then a[0] < b[0]
    else StrLess(a[1..], b[1..])
  }

  lemma {:induction false} StrLessIrreflexive(a: string)
    ensures !StrLess(a, a)
  {
    if |a| > 0 {
      StrLessIrreflexive(a[1..]);
    }
  }

  lemma {:induction false} StrLessTransitive(a: string, b: string, c: string)
    requires StrLess(a, b) && StrLess(b, c)
    ensures StrLess(a, c)
    decreases |a|
  {
    if |a| > 0 && a[0] == b[0] && b[0] == c[0] {
      StrLessTransitive(a[1..], b[1..], c[1..]);
    }
  }

  lemma {:induction false} StrLessTotal(a: string, b: string)
    requires a != b
    ensures StrLess(a, b) || StrLess(b, a)
    decreases |a|
  {
    if |a| > 0 && |b| > 0 && a[0] == b[0] {
      assert a == [a[0]] + a[1..] && b == [b[0]] + b[1..];
      StrLessTotal(a[1..], b[1..]);
    }
  }

  /** The strict order on keys of one kind; keys of different kinds are never compared. */
  predicate KeyLess(x: Key, y: Key)
    ensures KeyLess(x, y) ==> x.Num? == y.Num?
  {
    match (x, y)
    case (Num(m), Num(n)) => m < n
    case (Text(s), Text(t)) => StrLess(s, t)
    case _ => false
  }

  /** Keys of one field form a strict total order: two keys neither of which is less are equal. */
  lemma KeyLessTotalOrder(x: Key, y: Key, z: Key)
    requires x.Num? == y.Num? && y.Num? == z.Num?
    ensures !KeyLess(x, x)
    ensures KeyLess(x, y) && KeyLess(y, z) ==> KeyLess(x, z)
    ensures x != y ==> KeyLess(x, y) || KeyLess(y, x)
  {
    if x.Text? {
      StrLessIrreflexive(x.t);
      if KeyLess(x, y) && KeyLess(y, z) {
        StrLessTransitive(x.t, y.t, z.t);
      }
      if x != y {
        StrLessTotal(x.t, y.t);
      }
    }
  }

  /** The comparator handed to `sort`: for `Asc` it returns 1 when `a`'s key is
      greater than `b`'s, for `Desc` when it is smaller, and -1 otherwise. */
  function Compare(a: Lesson, b: Lesson, f: SortField, o: SortOrder): (r: int)
    ensures r == 1 || r == -1
  {
    if o == Asc then (if KeyLess(KeyOf(b, f), KeyOf(a, f)) then 1 else -1)
    else (if KeyLess(KeyOf(a, f), KeyOf(b, f)) then 1 else -1)
  }

  /** The comparator never answers 0: on two records with the same key it
      answers -1 both ways round, so it is not a consistent comparator and
      the engine is free to order such records as it likes. */
  lemma CompareTiesBothWays(a: Lesson, b: Lesson, f: SortField, o: SortOrder)
    requires KeyOf(a, f) == KeyOf(b, f)
    ensures Compare(a, b, f, o) == -1 && Compare(b, a, f, o) == -1
  {
    KeyLessTotalOrder(KeyOf(a, f), KeyOf(a, f), KeyOf(a, f));
  }

  /** `a` may stand before `b` in the sorted view: its key is not greater (`Asc`)
      or not smaller (`Desc`). */
  predicate InOrder(a: Lesson, b: Lesson, f: SortField, o: SortOrder) {
    if o == Asc then !KeyLess(KeyOf(b, f), KeyOf(a, f))
    else !KeyLess(KeyOf(a, f), KeyOf(b, f))
  }

  /** Non-decreasing keys for `Asc`, non-increasing keys for `Desc`. */
  predicate Ordered(s: seq<Lesson>, f: SortField, o: SortOrder) {
    forall i, j :: 0 <= i < j < |s| ==> InOrder(s[i], s[j], f, o)
  }

  lemma InOrderTransitive(a: Lesson, b: Lesson, c: Lesson, f: SortField, o: SortOrder)
    requires InOrder(a, b, f, o) && InOrder(b, c, f, o)
    ensures InOrder(a, c, f, o)
  {
    var x, y, z := KeyOf(a, f), KeyOf(b, f), KeyOf(c, f);
    KeyLessTotalOrder(x, y, z);
    KeyLessTotalOrder(z, x, y);
    KeyLessTotalOrder(y, z, x);
    KeyLessTotalOrder(x, z, y);
    KeyLessTotalOrder(z, y, x);
    KeyLessTotalOrder(y, x, z);
  }

  /** A record the comparator sends after `b` may indeed follow it. */
  lemma CompareAfter(a: Lesson, b: Lesson, f: SortField, o: SortOrder)
    requires Compare(a, b, f, o) > 0
    ensures InOrder(b, a, f, o)
  {
    KeyLessTotalOrder(KeyOf(a, f), KeyOf(b, f), KeyOf(a, f));
    KeyLessTotalOrder(KeyOf(b, f), KeyOf(a, f), KeyOf(b, f));
  }

  /** A record that may stand before every record of an ordered sequence may
      head it. */
  lemma ConsOrdered(a: Lesson, s: seq<Lesson>, f: SortField, o: SortOrder)
    requires Ordered(s, f, o)
    requires forall j :: 0 <= j < |s| ==> InOrder(a, s[j], f, o)
    ensures Ordered([a] + s, f, o)
  {
    forall i, j | 0 <= i < j < |[a] + s| ensures InOrder(([a] + s)[i], ([a] + s)[j], f, o) {
      if i > 0 {
        assert ([a] + s)[i] == s[i - 1];
      }
      assert ([a] + s)[j] == s[j - 1];
    }
  }

  /** A record that may stand before each of the records of `t` and before `x`
      may stand before each record of any rearrangement of them. */
  lemma BeforeAll(h: Lesson, t: seq<Lesson>, x: Lesson, r: seq<Lesson>, f: SortField, o: SortOrder)
    requires forall j :: 0 <= j < |t| ==> InOrder(h, t[j], f, o)
    requires InOrder(h, x, f, o)
    requires multiset(r) == multiset(t) + multiset{x}
    ensures forall j :: 0 <= j < |r| ==> InOrder(h, r[j], f, o)
  {
    forall j | 0 <= j < |r| ensures InOrder(h, r[j], f, o) {
      assert r[j] in multiset(r);
      if r[j] != x {
        assert r[j] in multiset(t);
        var m :| 0 <= m < |t| && t[m] == r[j];
      }
    }
  }

  /** Places `x` into an ordered sequence in front of the first record the
      comparator does not send it after. */
  function Insert(x: Lesson, s: seq<Lesson>, f: SortField, o: SortOrder): (r: seq<Lesson>)
    requires Ordered(s, f, o)
    ensures multiset(r) == multiset(s) + multiset{x}
    ensures Ordered(r, f, o)
    decreases |s|
  {
    if s == [] then [x]
    else if Compare(x, s[0], f, o) > 0 then
      var rest := Insert(x, s[1..], f, o);
      CompareAfter(x, s[0], f, o);
      BeforeAll(s[0], s[1..], x, rest, f, o);
      ConsOrdered(s[0], rest, f, o);
      assert s == [s[0]] + s[1..];
      [s[0]] + rest
    else
      assert forall j :: 0 <= j < |s| ==> InOrder(x, s[j], f, o) by {
        forall j | 0 <= j < |s| ensures InOrder(x, s[j], f, o) {
          if j > 0 {
            InOrderTransitive(x, s[0], s[j], f, o);
          }
        }
      }
      ConsOrdered(x, s, f, o);
      [x] + s
  }

  /** The sort applied to the copy of the ledger: an insertion sort driven by
      the source's comparator. */
  function SortLessons(s: seq<Lesson>, f: SortField, o: SortOrder): (r: seq<Lesson>)
    ensures multiset(r) == multiset(s)
    ensures Ordered(r, f, o)
  {
    if s == [] then []
    else
      assert s == [s[0]] + s[1..];
      Insert(s[0], SortLessons(s[1..], f, o), f, o)
  }
}
