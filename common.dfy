/** Shared vocabulary: optional values, validation outcomes, and the sequence
    helpers (filtering, subsequences, pairwise properties) the tables use. */
module Common {

  datatype Option<T> = None | Some(value: T)

  /** One entry of a 400 response body: the field it is keyed on and its message. */
  datatype FieldError = FieldError(field: string, message: string)

  datatype Error =
    | ValidationError(errors: seq<FieldError>)
    | NotFound
    | ServerError

  datatype Result<T> = Ok(value: T) | Err(error: Error)

  /** The key DRF uses for errors raised by a serializer's `validate`. */
  const NonFieldErrors := "non_field_errors"
  const RequiredMessage := "This field is required."
  const BlankMessage := "This field may not be blank."
  const InvalidEmailMessage := "Enter a valid email address."

  function Invalid<T>(field: string, message: string): Result<T> {
    Err(ValidationError([FieldError(field, message)]))
  }

  /** The field errors a check contributed to the response; none when it passed. */
  function ErrorsOf<T>(r: Result<T>): seq<FieldError> {
    if r.Err? && r.error.ValidationError? then r.error.errors else []
  }

  /** Decimal text of a natural number, as Python's `str` writes it. */
  function NatToString(n: nat): (s: string)
    ensures |s| > 0
    ensures forall i :: 0 <= i < |s| ==> '0' <= s[i] <= '9'
  {
    var d := ["0", "1", "2", "3", "4", "5", "6", "7", "8", "9"][n % 10];
    if n < 10 then d else NatToString(n / 10) + d
  }

  function IntToString(n: int): string {
    if n < 0 then "-" + NatToString(-n) else NatToString(n)
  }

  /** "Ensure this field has no more than N characters." */
  function MaxLengthMessage(n: nat): string {
    "Ensure this field has no more than " + NatToString(n) + " characters."
  }

  /** "Ensure this field has at least N characters." */
  function MinLengthMessage(n: nat): string {
    "Ensure this field has at least " + NatToString(n) + " characters."
  }

  /** `r` can be obtained from `s` by deleting elements, keeping the order of the rest. */
  ghost predicate IsSubsequence<T>(r: seq<T>, s: seq<T>)
    decreases |s|
  {
    r == [] || (s != [] && ((r[0] == s[0] && IsSubsequence(r[1..], s[1..])) || IsSubsequence(r, s[1..])))
  }

  /** Every earlier element stands in relation `R` to every later one. */
  predicate Pairwise<T>(s: seq<T>, R: (T, T) -> bool) {
    forall i, j :: 0 <= i < j < |s| ==> R(s[i], s[j])
  }

  /** The first element of `s` satisfying `p`, if any: a lookup by a field. */
  function FindFirst<T>(s: seq<T>, p: T -> bool): (r: Option<T>)
    ensures r.Some? ==> r.value in s && p(r.value)
    ensures r.None? <==> forall x :: x in s ==> !p(x)
  {
    if s == [] then None
    else if p(s[0]) then Some(s[0])
    else FindFirst(s[1..], p)
  }

  /** The elements of `s` satisfying `p`, in their original order: the ORM's `filter`. */
  function Filter<T(==,!new)>(s: seq<T>, p: T -> bool): (r: seq<T>)
    ensures forall x :: x in r <==> x in s && p(x)
    ensures forall x :: multiset(r)[x] == if p(x) then multiset(s)[x] else 0
    ensures IsSubsequence(r, s)
  {
    if s == [] then []
    else if p(s[0]) then
      var rest := Filter(s[1..], p);
      assert s == [s[0]] + s[1..];
      assert ([s[0]] + rest)[1..] == rest;
      [s[0]] + rest
    else
      assert s == [s[0]] + s[1..];
      Filter(s[1..], p)
  }

  lemma {:induction false} SubsequenceOfItself<T>(s: seq<T>)
    ensures IsSubsequence(s, s)
    decreases |s|
  {
    if s != [] {
      SubsequenceOfItself(s[1..]);
    }
  }

  lemma {:induction false} SubsequenceMembers<T>(r: seq<T>, s: seq<T>)
    requires IsSubsequence(r, s)
    ensures forall x :: x in r ==> x in s
    decreases |s|
  {
    if r != [] {
      if r[0] == s[0] && IsSubsequence(r[1..], s[1..]) {
        SubsequenceMembers(r[1..], s[1..]);
        assert r == [r[0]] + r[1..];
      } else {
        SubsequenceMembers(r, s[1..]);
      }
    }
  }

  /** Deleting elements cannot break a property that holds between every earlier and later element. */
  lemma {:induction false} SubsequencePairwise<T>(r: seq<T>, s: seq<T>, R: (T, T) -> bool)
    requires IsSubsequence(r, s) && Pairwise(s, R)
    ensures Pairwise(r, R)
    decreases |s|
  {
    if r != [] {
      if r[0] == s[0] && IsSubsequence(r[1..], s[1..]) {
        assert Pairwise(s[1..], R);
        SubsequencePairwise(r[1..], s[1..], R);
        SubsequenceMembers(r[1..], s[1..]);
        forall i, j | 0 <= i < j < |r| ensures R(r[i], r[j]) {
          if i == 0 {
            assert r[j] in r[1..];
            var k :| 0 <= k < |s[1..]| && s[1..][k] == r[j];
            assert R(s[0], s[k + 1]);
          } else {
            assert r[i] == r[1..][i - 1] && r[j] == r[1..][j - 1];
          }
        }
      } else {
        assert Pairwise(s[1..], R);
        SubsequencePairwise(r, s[1..], R);
      }
    }
  }
}
