// The lesson records of the booking front end: the catalogue ledger and the
// copies the cart keeps share this shape.
module Lessons {

  /** One catalogue record. `price` and `spaces` are JavaScript numbers in the
      source; here they are integers. */
  datatype Lesson = Lesson(id: int, subject: string, location: string, price: int, spaces: int)

  /** Some record of `s` carries `id`. */
  predicate HasId(s: seq<Lesson>, id: int) {
    exists k :: 0 <= k < |s| && s[k].id == id
  }

  /** The search `findIndex(x => x.id === id)`: the position of the first
      record with `id`, or -1 when there is none. `find` is the same search
      returning the record itself. */
  function FirstIndex(s: seq<Lesson>, id: int): (r: int)
    ensures -1 <= r < |s|
    ensures r == -1 <==> !HasId(s, id)
    ensures r >= 0 ==> s[r].id == id && forall k :: 0 <= k < r ==> s[k].id != id
  {
    if s == [] then -1
    else if s[0].id == id then 0
    else
      var r := FirstIndex(s[1..], id);
      assert HasId(s, id) ==> HasId(s[1..], id) by {
        if HasId(s, id) {
          var k :| 0 <= k < |s| && s[k].id == id;
          assert s[1..][k - 1].id == id;
        }
      }
      if r == -1 then -1 else r + 1
  }

  /** No two records share an id. */
  predicate UniqueIds(s: seq<Lesson>) {
    forall i, j :: 0 <= i < j < |s| ==> s[i].id != s[j].id
  }

  /** Every record has a non-negative number of spaces. */
  predicate NonNegative(s: seq<Lesson>) {
    forall k :: 0 <= k < |s| ==> s[k].spaces >= 0
  }

  /** The capacity held by a ledger: the sum of its `spaces`. */
  function TotalSpaces(s: seq<Lesson>): int {
    if s == [] then 0 else s[0].spaces + TotalSpaces(s[1..])
  }

  /** Setting one record's spaces to `v` moves the ledger's capacity by the difference. */
  lemma {:induction false} TotalSpacesUpdate(s: seq<Lesson>, i: nat, v: int)
    requires i < |s|
    ensures TotalSpaces(s[i := s[i].(spaces := v)]) == TotalSpaces(s) - s[i].spaces + v
  {
    if i > 0 {
      TotalSpacesUpdate(s[1..], i - 1, v);
      assert s[i := s[i].(spaces := v)][1..] == s[1..][i - 1 := s[i].(spaces := v)];
    }
  }

  /** The twelve records the front end shows when the catalogue cannot be loaded. */
  function FallbackLessons(): (r: seq<Lesson>)
    ensures |r| == 12
    ensures forall k :: 0 <= k < |r| ==> r[k].id == k + 1 && r[k].price > 0 && r[k].spaces > 0
    ensures UniqueIds(r)
  {
    [ Lesson(1, "Art", "Manchester", 75, 2),
      Lesson(2, "Art", "Bristol", 80, 5),
      Lesson(3, "English", "London", 90, 5),
      Lesson(4, "English", "York", 85, 5),
      Lesson(5, "English", "Bristol", 95, 5),
      Lesson(6, "Math", "London", 100, 4),
      Lesson(7, "Math", "Oxford", 100, 5),
      Lesson(8, "Math", "York", 80, 4),
      Lesson(9, "Music", "Bristol", 90, 5),
      Lesson(10, "Music", "Manchester", 85, 5),
      Lesson(11, "Science", "London", 110, 5),
      Lesson(12, "Science", "Oxford", 120, 5) ]
  }
}
