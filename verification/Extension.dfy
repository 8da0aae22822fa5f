/**
  The pure helpers of the widget's extension file: the `given` option
  combinators, the collection predicates, `onlyElement`, `nilIfEmpty`,
  `Int.nilIfZero` and the two `UIEdgeInsets` convenience initialisers.
  A Swift collection is a `seq`, a closure a total Dafny function.
 */
module Extension {
  import opened Wrappers
  import opened Geometry

  // ---------------------------------------------------------------------
  // `given`: Swift has three overloads of one name; Dafny needs three names.

  /** `given(x, f)`: apply `f` to the value of `x`, if there is one. */
  function Given<T, U>(x: Option<T>, f: T -> Option<U>): (r: Option<U>)
    ensures x.None? ==> r.None?
    ensures x.Some? ==> r == f(x.value)
  {
    match x
    case None => None
    case Some(v) => f(v)
  }

  /** `given(x, y, f)`: apply `f` when both arguments are present. */
  function GivenBoth<T, U, V>(x: Option<T>, y: Option<U>, f: (T, U) -> Option<V>): (r: Option<V>)
    ensures x.None? || y.None? ==> r.None?
    ensures x.Some? && y.Some? ==> r == f(x.value, y.value)
  {
    if x.Some? && y.Some? then f(x.value, y.value) else None
  }

  /**
    `given(c, x, y, f)`: pick `x` when the condition holds and `y` otherwise,
    then continue as `given(_, f)`. The condition closure is evaluated exactly
    once, so it is modelled by the value it returns.
   */
  function GivenChoice<T, U>(c: bool, x: Option<T>, y: Option<T>, f: T -> Option<U>): (r: Option<U>)
    ensures c ==> r == Given(x, f)
    ensures !c ==> r == Given(y, f)
  {
    var chosen := if c then x else y;
    match chosen
    case None => None
    case Some(v) => f(v)
  }

  /** `given` with a function that always succeeds changes nothing. */
  lemma GivenSomeIsIdentity<T>(x: Option<T>)
    ensures Given(x, (v: T) => Some(v)) == x
  {
  }

  /** Chained `given`s nest: `given(given(x, f), g)` is `given(x) { given(f($0), g) }`. */
  lemma GivenAssociative<T, U, V>(x: Option<T>, f: T -> Option<U>, g: U -> Option<V>)
    ensures Given(Given(x, f), g) == Given(x, (v: T) => Given(f(v), g))
  {
  }

  /** The two-argument `given` is the one-argument one applied twice. */
  lemma GivenBothIsNestedGiven<T, U, V>(x: Option<T>, y: Option<U>, f: (T, U) -> Option<V>)
    ensures GivenBoth(x, y, f) == Given(x, (a: T) => Given(y, (b: U) => f(a, b)))
  {
  }

  // ---------------------------------------------------------------------
  // Collection predicates. Each source loop walks the elements in order and
  // stops at the first decisive one; the recursion does the same.

  /** `allMatch`: no element fails the predicate. */
  function AllMatch<T>(s: seq<T>, p: T -> bool): (r: bool)
    ensures r <==> forall i :: 0 <= i < |s| ==> p(s[i])
    ensures |s| == 0 ==> r
  {
    if |s| == 0 then true
    else if !p(s[0]) then false
    else AllMatch(s[1..], p)
  }

  /** `anyMatch`: some element satisfies the predicate. */
  function AnyMatch<T>(s: seq<T>, p: T -> bool): (r: bool)
    ensures r <==> exists i :: 0 <= i < |s| && p(s[i])
    ensures |s| == 0 ==> !r
  {
    if |s| == 0 then false
    else if p(s[0]) then true
    else AnyMatch(s[1..], p)
  }

  /** `noMatch`: no element satisfies the predicate. */
  function NoMatch<T>(s: seq<T>, p: T -> bool): (r: bool)
    ensures r <==> forall i :: 0 <= i < |s| ==> !p(s[i])
  {
    if |s| == 0 then true
    else if p(s[0]) then false
    else NoMatch(s[1..], p)
  }

  /** `noMatch` is the negation of `anyMatch`, for every predicate. */
  lemma {:induction false} NoMatchIsNotAnyMatch<T>(s: seq<T>, p: T -> bool)
    ensures NoMatch(s, p) == !AnyMatch(s, p)
  {
  }

  /** `allMatch(p)` is `noMatch` of the negated predicate. */
  lemma AllMatchIsNoMatchOfNegation<T>(s: seq<T>, p: T -> bool)
    ensures AllMatch(s, p) == NoMatch(s, (x: T) => !p(x))
  {
  }

  // ---------------------------------------------------------------------
  // Optional views of collections and numbers.

  /** `onlyElement`: the element of a one-element collection, else `nil`. */
  function OnlyElement<T>(s: seq<T>): (r: Option<T>)
    ensures r.Some? <==> |s| == 1
    ensures r.Some? ==> r.value == s[0]
  {
    if |s| == 1 then Some(s[0]) else None
  }

  /** `onlyElement` returns `x` exactly for the collection `[x]`. */
  lemma OnlyElementIsSingleton<T>(s: seq<T>, x: T)
    ensures OnlyElement(s) == Some(x) <==> s == [x]
  {
    if s == [x] {
      assert |s| == 1 && s[0] == x;
    }
    if OnlyElement(s) == Some(x) {
      assert |s| == 1 && s[0] == x;
      assert s == [s[0]];
    }
  }

  /** `nilIfEmpty`: the collection itself, unless it is empty. */
  function NilIfEmpty<T>(s: seq<T>): (r: Option<seq<T>>)
    ensures r.None? <==> |s| == 0
    ensures r.Some? ==> r.value == s
  {
    if |s| == 0 then None else Some(s)
  }

  /** Falling back to the empty collection undoes `nilIfEmpty`. */
  lemma NilIfEmptyRoundTrip<T>(s: seq<T>)
    ensures NilIfEmpty(s).GetOr([]) == s
  {
  }

  /** `Int.nilIfZero`: the number itself, unless it is zero. */
  function NilIfZero(n: int): (r: Option<int>)
    ensures r.None? <==> n == 0
    ensures r.Some? ==> r.value == n
  {
    if n == 0 then None else Some(n)
  }

  /** Falling back to zero undoes `nilIfZero`. */
  lemma NilIfZeroRoundTrip(n: int)
    ensures NilIfZero(n).GetOr(0) == n
  {
  }

  // ---------------------------------------------------------------------
  // `UIEdgeInsets` convenience initialisers.

  /** `UIEdgeInsets(uniform:)`. */
  function UniformInsets(value: real): (e: EdgeInsets)
    ensures e.top == value && e.left == value && e.bottom == value && e.right == value
  {
    EdgeInsets(value, value, value, value)
  }

  /** `UIEdgeInsets(horizontal:vertical:)`, both defaulting to 0. */
  function SymmetricInsets(horizontal: real := 0.0, vertical: real := 0.0): (e: EdgeInsets)
    ensures e.left == horizontal && e.right == horizontal
    ensures e.top == vertical && e.bottom == vertical
  {
    EdgeInsets(vertical, horizontal, vertical, horizontal)
  }

  /** Equal horizontal and vertical insets are uniform insets; no arguments means no inset. */
  lemma SymmetricInsetsAgreeWithUniform(v: real)
    ensures SymmetricInsets(v, v) == UniformInsets(v)
    ensures SymmetricInsets() == UniformInsets(0.0)
  {
  }
}
