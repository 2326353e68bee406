/** Python's orders on strings, lists and tuples, and its stable `sorted`. */
module Ordering {
  import opened Prelude

  ghost predicate TotalPreorder<T(!new)>(le: (T, T) -> bool) {
    && (forall a, b :: le(a, b) || le(b, a))
    && (forall a, b, c :: le(a, b) && le(b, c) ==> le(a, c))
  }

  ghost predicate Antisymmetric<T(!new)>(le: (T, T) -> bool) {
    forall a, b :: le(a, b) && le(b, a) ==> a == b
  }

  ghost predicate TotalOrder<T(!new)>(le: (T, T) -> bool) {
    TotalPreorder(le) && Antisymmetric(le)
  }

  // ---------- stable sorting ----------

  function Insert<T>(le: (T, T) -> bool, x: T, s: seq<T>): seq<T> {
    if s == [] || le(x, s[0]) then [x] + s else [s[0]] + Insert(le, x, s[1..])
  }

  /** `sorted`: equal keys keep their input order. */
  function Sort<T>(le: (T, T) -> bool, s: seq<T>): seq<T> {
    if s == [] then [] else Insert(le, s[0], Sort(le, s[1..]))
  }

  ghost predicate Sorted<T>(le: (T, T) -> bool, s: seq<T>) {
    forall i, j | 0 <= i < j < |s| :: le(s[i], s[j])
  }

  lemma {:induction false} InsertSorted<T(!new)>(le: (T, T) -> bool, x: T, s: seq<T>)
    requires TotalPreorder(le)
    requires Sorted(le, s)
    ensures Sorted(le, Insert(le, x, s))
    ensures multiset(Insert(le, x, s)) == multiset([x]) + multiset(s)
  {
    if s == [] {
    } else if le(x, s[0]) {
      var r := Insert(le, x, s);
      forall j | 0 < j < |r| ensures le(x, r[j]) {
        assert r[j] == s[j - 1];
        assert j == 1 || le(s[0], s[j - 1]);
      }
    } else {
      InsertSorted(le, x, s[1..]);
      var tail := Insert(le, x, s[1..]);
      assert s == [s[0]] + s[1..];
      forall y | y in tail ensures le(s[0], y) {
        assert y in multiset(tail);
        if y != x {
          assert y in multiset(s[1..]);
          assert y in s[1..];
        }
      }
    }
  }

  lemma {:induction false} SortSorts<T(!new)>(le: (T, T) -> bool, s: seq<T>)
    requires TotalPreorder(le)
    ensures Sorted(le, Sort(le, s))
    ensures multiset(Sort(le, s)) == multiset(s)
  {
    if s != [] {
      SortSorts(le, s[1..]);
      InsertSorted(le, s[0], Sort(le, s[1..]));
      assert s == [s[0]] + s[1..];
    }
  }

  lemma SortMembers<T(!new)>(le: (T, T) -> bool, s: seq<T>)
    requires TotalPreorder(le)
    ensures forall x :: x in Sort(le, s) <==> x in s
    ensures |Sort(le, s)| == |s|
  {
    SortSorts(le, s);
    assert |multiset(Sort(le, s))| == |multiset(s)|;
    forall x ensures x in Sort(le, s) <==> x in s {
      assert x in Sort(le, s) <==> x in multiset(Sort(le, s));
      assert x in s <==> x in multiset(s);
    }
  }

  /** The head of a sorted arrangement is below every member. */
  lemma HeadIsLeast<T(!new)>(le: (T, T) -> bool, a: seq<T>, x: T)
    requires Sorted(le, a) && x in a && x != a[0]
    ensures le(a[0], x)
  {
    var j :| 0 <= j < |a| && a[j] == x;
  }

  lemma TailMultiset<T>(a: seq<T>)
    requires a != []
    ensures multiset(a[1..]) == multiset(a) - multiset([a[0]])
  {
    assert a == [a[0]] + a[1..];
  }

  /** A sorted arrangement is unique when equal keys mean equal elements. */
  lemma {:induction false} SortedUnique<T(!new)>(le: (T, T) -> bool, a: seq<T>, b: seq<T>)
    requires Sorted(le, a) && Sorted(le, b)
    requires multiset(a) == multiset(b)
    requires forall x, y | x in a && y in a && le(x, y) && le(y, x) :: x == y
    ensures a == b
  {
    assert |multiset(a)| == |multiset(b)|;
    if a != [] {
      assert a[0] == b[0] by {
        assert a[0] in multiset(b) && b[0] in multiset(a);
        if a[0] != b[0] {
          HeadIsLeast(le, a, b[0]);
          HeadIsLeast(le, b, a[0]);
        }
      }
      TailMultiset(a);
      TailMultiset(b);
      forall x, y | x in a[1..] && y in a[1..] && le(x, y) && le(y, x) ensures x == y {
        assert x in a && y in a;
      }
      SortedUnique(le, a[1..], b[1..]);
    }
  }

  /** Sorting forgets the input order as far as the key separates the elements. */
  lemma SortCanonical<T(!new)>(le: (T, T) -> bool, a: seq<T>, b: seq<T>)
    requires TotalPreorder(le)
    requires multiset(a) == multiset(b)
    requires forall x, y | x in a && y in a && le(x, y) && le(y, x) :: x == y
    ensures Sort(le, a) == Sort(le, b)
  {
    SortSorts(le, a);
    SortSorts(le, b);
    SortMembers(le, a);
    SortedUnique(le, Sort(le, a), Sort(le, b));
  }

  ghost predicate NoDuplicates<T(!new)>(s: seq<T>) {
    forall i, j | 0 <= i < j < |s| :: s[i] != s[j]
  }

  lemma {:induction false} CountAtMostOne<T(!new)>(s: seq<T>, x: T)
    requires NoDuplicates(s)
    ensures multiset(s)[x] <= 1
  {
    if s != [] {
      CountAtMostOne(s[1..], x);
      assert s == [s[0]] + s[1..];
      assert s[0] !in s[1..];
      assert s[0] !in multiset(s[1..]);
    }
  }

  lemma {:induction false} MultisetNoDuplicates<T(!new)>(a: seq<T>, b: seq<T>)
    requires multiset(a) == multiset(b)
    requires NoDuplicates(a)
    ensures NoDuplicates(b)
  {
    forall i, j | 0 <= i < j < |b| ensures b[i] != b[j] {
      if b[i] == b[j] {
        assert b == b[..i] + [b[i]] + b[i + 1..j] + [b[j]] + b[j + 1..];
        assert multiset(b)[b[i]] >= 2;
        CountAtMostOne(a, b[i]);
      }
    }
  }

  // ---------- lexicographic order ----------

  /** Python compares sequences at their first differing position. */
  predicate LexLe<T(==)>(le: (T, T) -> bool, a: seq<T>, b: seq<T>) {
    if a == [] then true
    else if b == [] then false
    else if a[0] == b[0] then LexLe(le, a[1..], b[1..])
    else le(a[0], b[0])
  }

  lemma {:induction false} LexTotal<T(!new)>(le: (T, T) -> bool, a: seq<T>, b: seq<T>)
    requires TotalOrder(le)
    ensures LexLe(le, a, b) || LexLe(le, b, a)
  {
    if a != [] && b != [] && a[0] == b[0] {
      LexTotal(le, a[1..], b[1..]);
    }
  }

  lemma {:induction false} LexTransitive<T(!new)>(le: (T, T) -> bool, a: seq<T>, b: seq<T>, c: seq<T>)
    requires TotalOrder(le)
    requires LexLe(le, a, b) && LexLe(le, b, c)
    ensures LexLe(le, a, c)
  {
    if a != [] && a[0] == b[0] == c[0] {
      LexTransitive(le, a[1..], b[1..], c[1..]);
    }
  }

  lemma {:induction false} LexAntisymmetric<T(!new)>(le: (T, T) -> bool, a: seq<T>, b: seq<T>)
    requires TotalOrder(le)
    requires LexLe(le, a, b) && LexLe(le, b, a)
    ensures a == b
  {
    if a != [] && b != [] {
      assert a[0] == b[0];
      LexAntisymmetric(le, a[1..], b[1..]);
      assert a == [a[0]] + a[1..] && b == [b[0]] + b[1..];
    }
  }

  predicate ByteLe(a: byte, b: byte) {
    a <= b
  }

  predicate TextLe(a: Text, b: Text) {
    LexLe(ByteLe, a, b)
  }

  lemma TextOrder()
    ensures TotalOrder(TextLe)
  {
    forall a: Text, b: Text ensures TextLe(a, b) || TextLe(b, a) {
      LexTotal(ByteLe, a, b);
    }
    forall a: Text, b: Text, c: Text | TextLe(a, b) && TextLe(b, c) ensures TextLe(a, c) {
      LexTransitive(ByteLe, a, b, c);
    }
    forall a: Text, b: Text | TextLe(a, b) && TextLe(b, a) ensures a == b {
      LexAntisymmetric(ByteLe, a, b);
    }
  }

  predicate IsLeast<T(==)>(le: (T, T) -> bool, x: T, s: set<T>) {
    x in s && forall y | y in s :: le(x, y)
  }

  lemma {:induction false} LeastExists<T(!new)>(le: (T, T) -> bool, s: set<T>) returns (x: T)
    requires TotalPreorder(le) && s != {}
    ensures IsLeast(le, x, s)
  {
    var a :| a in s;
    if s == {a} {
      x := a;
    } else {
      var b := LeastExists(le, s - {a});
      x := if le(a, b) then a else b;
      forall y | y in s ensures le(x, y) {
        assert y == a || le(b, y);
      }
    }
  }

  lemma LeastTextExists(s: set<Text>)
    requires s != {}
    ensures exists x :: x in s && IsLeast(TextLe, x, s)
    ensures forall x, y | IsLeast(TextLe, x, s) && IsLeast(TextLe, y, s) :: x == y
  {
    TextOrder();
    var x := LeastExists(TextLe, s);
  }

  function LeastText(s: set<Text>): (x: Text)
    requires s != {}
    ensures IsLeast(TextLe, x, s)
  {
    LeastTextExists(s);
    var x :| x in s && IsLeast(TextLe, x, s);
    x
  }

  /** `sorted` of a set of texts. */
  function SortedKeys(s: set<Text>): (keys: seq<Text>)
    ensures forall k :: k in keys <==> k in s
  {
    if s == {} then [] else [LeastText(s)] + SortedKeys(s - {LeastText(s)})
  }

  predicate TextsLe(a: seq<Text>, b: seq<Text>) {
    LexLe(TextLe, a, b)
  }

  lemma TextsOrder()
    ensures TotalOrder(TextsLe)
  {
    TextOrder();
    forall a: seq<Text>, b: seq<Text> ensures TextsLe(a, b) || TextsLe(b, a) {
      LexTotal(TextLe, a, b);
    }
    forall a: seq<Text>, b: seq<Text>, c: seq<Text> | TextsLe(a, b) && TextsLe(b, c) ensures TextsLe(a, c) {
      LexTransitive(TextLe, a, b, c);
    }
    forall a: seq<Text>, b: seq<Text> | TextsLe(a, b) && TextsLe(b, a) ensures a == b {
      LexAntisymmetric(TextLe, a, b);
    }
  }

  /** One component of a row that the source sorts. */
  datatype Key = KText(text: Text) | KNumber(number: real) | KTexts(texts: seq<Text>)

  /** Components in the same position of two rows always share a constructor; across
      constructors the order is fixed arbitrarily so that it is total. */
  predicate KeyLe(a: Key, b: Key) {
    match (a, b)
    case (KText(x), KText(y)) => TextLe(x, y)
    case (KNumber(x), KNumber(y)) => x <= y
    case (KTexts(x), KTexts(y)) => TextsLe(x, y)
    case (KText(_), _) => true
    case (KNumber(_), KTexts(_)) => true
    case (_, _) => false
  }

  lemma KeyOrder()
    ensures TotalOrder(KeyLe)
  {
    TextOrder();
    TextsOrder();
    forall a: Key, b: Key ensures KeyLe(a, b) || KeyLe(b, a) {
      if a.KText? && b.KText? { assert TextLe(a.text, b.text) || TextLe(b.text, a.text); }
      if a.KTexts? && b.KTexts? { assert TextsLe(a.texts, b.texts) || TextsLe(b.texts, a.texts); }
    }
    forall a: Key, b: Key, c: Key | KeyLe(a, b) && KeyLe(b, c) ensures KeyLe(a, c) {
      if a.KText? && c.KText? { assert TextLe(a.text, b.text) && TextLe(b.text, c.text); }
      if a.KTexts? && c.KTexts? { assert TextsLe(a.texts, b.texts) && TextsLe(b.texts, c.texts); }
    }
    forall a: Key, b: Key | KeyLe(a, b) && KeyLe(b, a) ensures a == b {
      if a.KText? { assert TextLe(a.text, b.text) && TextLe(b.text, a.text); }
      if a.KTexts? { assert TextsLe(a.texts, b.texts) && TextsLe(b.texts, a.texts); }
    }
  }

  type Row = seq<Key>

  predicate RowLe(a: Row, b: Row) {
    LexLe(KeyLe, a, b)
  }

  lemma RowOrder()
    ensures TotalOrder(RowLe)
  {
    KeyOrder();
    forall a: Row, b: Row ensures RowLe(a, b) || RowLe(b, a) {
      LexTotal(KeyLe, a, b);
    }
    forall a: Row, b: Row, c: Row | RowLe(a, b) && RowLe(b, c) ensures RowLe(a, c) {
      LexTransitive(KeyLe, a, b, c);
    }
    forall a: Row, b: Row | RowLe(a, b) && RowLe(b, a) ensures a == b {
      LexAntisymmetric(KeyLe, a, b);
    }
  }

  // ---------- sorting by a key ----------

  /** The order that compares elements by a row key. */
  function By<T>(key: T -> Row): (T, T) -> bool {
    (a, b) => RowLe(key(a), key(b))
  }

  lemma ByPreorder<T(!new)>(key: T -> Row)
    ensures TotalPreorder(By(key))
    ensures forall a, b :: By(key)(a, b) && By(key)(b, a) ==> key(a) == key(b)
  {
    RowOrder();
    var le := By(key);
    forall a, b ensures le(a, b) || le(b, a) {
      assert RowLe(key(a), key(b)) || RowLe(key(b), key(a));
    }
    forall a, b, c | le(a, b) && le(b, c) ensures le(a, c) {
      assert RowLe(key(a), key(b)) && RowLe(key(b), key(c));
    }
  }

  /** Rows sorted by a separating key form the same list exactly when they form the same multiset. */
  lemma SortByKeyIffMultiset<T(!new)>(key: T -> Row, a: seq<T>, b: seq<T>)
    requires forall x, y | x in a && y in a && key(x) == key(y) :: x == y
    ensures Sort(By(key), a) == Sort(By(key), b) <==> multiset(a) == multiset(b)
  {
    ByPreorder(key);
    SortSorts(By(key), a);
    SortSorts(By(key), b);
    if multiset(a) == multiset(b) {
      SortCanonical(By(key), a, b);
    }
  }
}
