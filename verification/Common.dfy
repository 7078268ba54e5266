/** Small shared datatypes and helpers. */
module Common {

  datatype Option<+T> = None | Some(value: T)

  datatype Result<+T, +E> = Ok(value: T) | Err(error: E)

  function Min(a: int, b: int): int {
    if a <= b then a else b
  }

  function Max(a: int, b: int): int {
    if a >= b then a else b
  }

  function Reverse<T>(s: seq<T>): seq<T> {
    if s == [] then [] else Reverse(s[1..]) + [s[0]]
  }

  lemma {:induction false} ReverseConcat<T>(a: seq<T>, b: seq<T>)
    ensures Reverse(a + b) == Reverse(b) + Reverse(a)
  {
    if a == [] {
      assert a + b == b;
    } else {
      assert (a + b)[1..] == a[1..] + b;
      ReverseConcat(a[1..], b);
    }
  }

  lemma Associates<T>(a: seq<T>, b: seq<T>, c: seq<T>)
    ensures a + (b + c) == (a + b) + c
  {
  }

  ghost function TheOnly<T>(ids: set<T>): (id: T)
    requires |ids| == 1
    ensures ids == {id}
  {
    var id :| id in ids;
    OnlyOne(ids, id);
    id
  }

  lemma OnlyOne<T>(ids: set<T>, id: T)
    requires |ids| == 1 && id in ids
    ensures ids == {id}
  {
    assert |ids - {id}| == 0;
    assert ids == (ids - {id}) + {id};
  }

  lemma AtMostOne<T>(ids: set<T>)
    requires forall a, b :: a in ids && b in ids ==> a == b
    ensures |ids| <= 1
  {
    if ids != {} {
      var a :| a in ids;
      assert ids == {a};
    }
  }

  datatype MultipleFound = MultipleFound

  /** `scalar_one_or_none` over the rows that match */
  method OneOrNone<T(==)>(ids: set<T>) returns (r: Result<Option<T>, MultipleFound>)
    ensures |ids| == 0 ==> r == Ok(None)
    ensures |ids| == 1 ==> r == Ok(Some(TheOnly(ids)))
    ensures |ids| > 1 ==> r == Err(MultipleFound)
  {
    if |ids| == 0 {
      return Ok(None);
    }
    if |ids| > 1 {
      return Err(MultipleFound);
    }
    var id :| id in ids;
    OnlyOne(ids, id);
    return Ok(Some(id));
  }
}
