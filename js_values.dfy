/** Scalar values as they travel in JSON between the server and the browser. */
module JsValues {

  datatype Option<+T> = None | Some(value: T)

  /**
   * A JavaScript scalar as it can appear in a joined row column or a request
   * field. `Undefined` also stands for a key that an object does not have.
   * Numbers are integers here: ids, ordinals and counters are whole numbers.
   */
  datatype Value = Undefined | Null | Bool(b: bool) | Num(n: int) | Str(s: string)

  /** JavaScript truthiness: the result of `!!v`. */
  predicate Truthy(v: Value)
  {
    match v
    case Undefined => false
    case Null => false
    case Bool(b) => b
    case Num(n) => n != 0
    case Str(s) => s != ""
  }

  /** The ids of a sequence of records are pairwise distinct. */
  predicate DistinctIds(ids: seq<Value>)
  {
    forall i, j :: 0 <= i < j < |ids| ==> ids[i] != ids[j]
  }

  /** Every id is truthy, so `if (row.x_id)` would have admitted it. */
  predicate TruthyIds(ids: seq<Value>)
  {
    forall i :: 0 <= i < |ids| ==> Truthy(ids[i])
  }

  /**
   * Index of the first element equal to `id`, or `|ids|` when there is none:
   * the position `Array.prototype.find` stops at under `===`.
   */
  function IndexOfId(ids: seq<Value>, id: Value): (k: nat)
    ensures k <= |ids|
    ensures k < |ids| <==> id in ids
    ensures k < |ids| ==> ids[k] == id
    ensures forall j :: 0 <= j < k ==> ids[j] != id
  {
    if ids == [] then 0
    else if ids[0] == id then 0
    else 1 + IndexOfId(ids[1..], id)
  }

  /** The linear search `xs.find(x => x.id === id)` performs, as a loop. */
  method Find(ids: seq<Value>, id: Value) returns (k: nat)
    ensures k == IndexOfId(ids, id)
  {
    k := 0;
    while k < |ids| && ids[k] != id
      invariant k <= |ids|
      invariant forall j :: 0 <= j < k ==> ids[j] != id
    {
      k := k + 1;
    }
  }

  /**
   * The distinct elements of `s` in order of first occurrence: what a
   * find-then-push loop keeps when it meets the ids of `s` one by one.
   */
  function FirstOccurrences(s: seq<Value>): seq<Value>
  {
    if s == [] then []
    else
      var d := FirstOccurrences(s[..|s| - 1]);
      if s[|s| - 1] in d then d else d + [s[|s| - 1]]
  }

  /**
   * FirstOccurrences keeps exactly the elements of `s`, each once, is never
   * longer than `s`, and lists them in the order of their first position in `s`.
   */
  lemma {:induction false} FirstOccurrencesSpec(s: seq<Value>)
    ensures var d := FirstOccurrences(s);
      && DistinctIds(d)
      && |d| <= |s|
      && (forall x :: x in d <==> x in s)
      && (forall i, j :: 0 <= i < j < |d| ==> IndexOfId(s, d[i]) < IndexOfId(s, d[j]))
  {
    if s != [] {
      var p := s[..|s| - 1];
      var x := s[|s| - 1];
      FirstOccurrencesSpec(p);
      var d := FirstOccurrences(p);
      assert s == p + [x];
      forall y | y in p
        ensures IndexOfId(s, y) == IndexOfId(p, y)
      {
        IndexOfPrefix(p, x, y);
      }
      if x !in d {
        assert x !in p;
        assert IndexOfId(s, x) == |p| by {
          assert s[|p|] == x;
        }
        forall i, j | 0 <= i < j < |d + [x]|
          ensures IndexOfId(s, (d + [x])[i]) < IndexOfId(s, (d + [x])[j])
        {
          if j < |d| {
            assert d[i] in p && d[j] in p;
          } else {
            assert d[i] in p;
          }
        }
      } else {
        forall i, j | 0 <= i < j < |d|
          ensures IndexOfId(s, d[i]) < IndexOfId(s, d[j])
        {
          assert d[i] in p && d[j] in p;
        }
      }
    }
  }

  /** Searching `p + [x]` finds what searching `p` finds, else `x` at the end. */
  lemma {:induction false} IndexOfSnoc(p: seq<Value>, x: Value, y: Value)
    ensures IndexOfId(p + [x], y) ==
      if y in p then IndexOfId(p, y) else if y == x then |p| else |p| + 1
  {
    if p == [] {
      assert [x][1..] == [];
    } else if p[0] != y {
      assert (p + [x])[1..] == p[1..] + [x];
      IndexOfSnoc(p[1..], x, y);
    }
  }

  /** Searching `p + [x]` for an element of `p` stops where searching `p` does. */
  lemma IndexOfPrefix(p: seq<Value>, x: Value, y: Value)
    requires y in p
    ensures IndexOfId(p + [x], y) == IndexOfId(p, y)
  {
    IndexOfSnoc(p, x, y);
  }

  /** One more element extends the first occurrences only when it is new. */
  lemma FirstOccurrencesSnoc(s: seq<Value>, x: Value)
    ensures FirstOccurrences(s + [x]) ==
      if x in FirstOccurrences(s) then FirstOccurrences(s) else FirstOccurrences(s) + [x]
  {
    assert (s + [x])[..|s|] == s;
  }

  // The decimal form of an integer, as `String(n)` writes it.

  function DigitChar(d: nat): char
    requires d < 10
  {
    ('0' as nat + d) as char
  }

  function Digits(n: nat): (ds: string)
    ensures |ds| > 0
    ensures forall i :: 0 <= i < |ds| ==> '0' <= ds[i] <= '9'
  {
    if n < 10 then [DigitChar(n)] else Digits(n / 10) + [DigitChar(n % 10)]
  }

  function DecimalString(n: int): string
  {
    if n < 0 then "-" + Digits(-n) else Digits(n)
  }
}
