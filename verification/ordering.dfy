/**
 * SQL `ORDER BY` over the activation-key table, as an abstract total order.
 *
 * A row is ordered by a list of sort keys, each a column value with a direction. Within one
 * direction the order is the one PostgreSQL uses for the column types that occur: `false <
 * true`, integers numerically, text by a collation (here code-point lexicographic order, a
 * stand-in for the database collation), and NULL after every other value in ascending order
 * (so before them in descending order). Rows that tie on every key may come back in any order;
 * `SortBy` picks one of the orders the database may produce.
 */
module Ordering {

  datatype Value = VBool(b: bool) | VInt(i: int) | VText(s: string) | VNull

  /** One sort key: a value and the direction of its `ORDER BY` item. */
  datatype SortKey = Asc(v: Value) | Desc(v: Value)

  /** Code-point lexicographic order on strings. */
  predicate TextLe(a: string, b: string) {
    if a == [] then true
    else if b == [] then false
    else if a[0] != b[0] then a[0] < b[0]
    else TextLe(a[1..], b[1..])
  }

  function Rank(v: Value): nat {
    match v
    case VBool(_) => 0
    case VInt(_) => 1
    case VText(_) => 2
    case VNull => 3
  }

  /** Ascending order on values, NULL last. */
  predicate ValueLe(a: Value, b: Value) {
    if Rank(a) != Rank(b) then Rank(a) < Rank(b)
    else match a
      case VBool(x) => !x || b.b
      case VInt(x) => x <= b.i
      case VText(x) => TextLe(x, b.s)
      case VNull => true
  }

  predicate SortKeyLe(x: SortKey, y: SortKey) {
    match x
    case Asc(v) => if y.Asc? then ValueLe(v, y.v) else true
    case Desc(v) => if y.Desc? then ValueLe(y.v, v) else false
  }

  /** Lexicographic order on lists of sort keys: the first key that differs decides. */
  predicate KeysLe(a: seq<SortKey>, b: seq<SortKey>) {
    if a == [] then true
    else if b == [] then false
    else if a[0] != b[0] then SortKeyLe(a[0], b[0])
    else KeysLe(a[1..], b[1..])
  }

  lemma {:induction false} TextLeTotal(a: string, b: string)
    ensures TextLe(a, b) || TextLe(b, a)
  {
    if a != [] && b != [] && a[0] == b[0] {
      TextLeTotal(a[1..], b[1..]);
    }
  }

  lemma {:induction false} TextLeAntisymmetric(a: string, b: string)
    requires TextLe(a, b) && TextLe(b, a)
    ensures a == b
  {
    if a != [] && b != [] {
      TextLeAntisymmetric(a[1..], b[1..]);
      assert a == [a[0]] + a[1..] && b == [b[0]] + b[1..];
    }
  }

  lemma {:induction false} TextLeTransitive(a: string, b: string, c: string)
    requires TextLe(a, b) && TextLe(b, c)
    ensures TextLe(a, c)
  {
    if a != [] && b != [] && c != [] && a[0] == b[0] && b[0] == c[0] {
      TextLeTransitive(a[1..], b[1..], c[1..]);
    }
  }

  lemma ValueLeTotal(a: Value, b: Value)
    ensures ValueLe(a, b) || ValueLe(b, a)
  {
    if a.VText? && b.VText? {
      TextLeTotal(a.s, b.s);
    }
  }

  lemma ValueLeAntisymmetric(a: Value, b: Value)
    requires ValueLe(a, b) && ValueLe(b, a)
    ensures a == b
  {
    if a.VText? && b.VText? {
      TextLeAntisymmetric(a.s, b.s);
    }
  }

  lemma ValueLeTransitive(a: Value, b: Value, c: Value)
    requires ValueLe(a, b) && ValueLe(b, c)
    ensures ValueLe(a, c)
  {
    if a.VText? && b.VText? && c.VText? {
      TextLeTransitive(a.s, b.s, c.s);
    }
  }

  lemma SortKeyLeTotal(x: SortKey, y: SortKey)
    ensures SortKeyLe(x, y) || SortKeyLe(y, x)
  {
    ValueLeTotal(x.v, y.v);
  }

  lemma SortKeyLeAntisymmetric(x: SortKey, y: SortKey)
    requires SortKeyLe(x, y) && SortKeyLe(y, x)
    ensures x == y
  {
    if x.Asc? == y.Asc? {
      ValueLeAntisymmetric(x.v, y.v);
    }
  }

  lemma SortKeyLeTransitive(x: SortKey, y: SortKey, z: SortKey)
    requires SortKeyLe(x, y) && SortKeyLe(y, z)
    ensures SortKeyLe(x, z)
  {
    if x.Asc? && y.Asc? && z.Asc? {
      ValueLeTransitive(x.v, y.v, z.v);
    } else if x.Desc? && y.Desc? && z.Desc? {
      ValueLeTransitive(z.v, y.v, x.v);
    }
  }

  /** Any two rows are comparable. */
  lemma {:induction false} KeysLeTotal(a: seq<SortKey>, b: seq<SortKey>)
    ensures KeysLe(a, b) || KeysLe(b, a)
  {
    if a != [] && b != [] {
      if a[0] != b[0] {
        SortKeyLeTotal(a[0], b[0]);
      } else {
        KeysLeTotal(a[1..], b[1..]);
      }
    }
  }

  /** The order on rows is transitive. */
  lemma {:induction false} KeysLeTransitive(a: seq<SortKey>, b: seq<SortKey>, c: seq<SortKey>)
    requires KeysLe(a, b) && KeysLe(b, c)
    ensures KeysLe(a, c)
  {
    if a != [] {
      assert b != [] && c != [];
      if a[0] != b[0] && b[0] != c[0] {
        SortKeyLeTransitive(a[0], b[0], c[0]);
        if a[0] == c[0] {
          SortKeyLeAntisymmetric(a[0], b[0]);
        }
      } else if a[0] == b[0] && b[0] == c[0] {
        KeysLeTransitive(a[1..], b[1..], c[1..]);
      }
    }
  }

  /** `s` is in the order the keys ask for. */
  predicate SortedBy<T>(s: seq<T>, key: T -> seq<SortKey>) {
    forall i, j :: 0 <= i < j < |s| ==> KeysLe(key(s[i]), key(s[j]))
  }

  /** Inserts `x` into a sorted sequence in front of the first element it does not follow. */
  function Insert<T>(x: T, s: seq<T>, key: T -> seq<SortKey>): (r: seq<T>)
    requires SortedBy(s, key)
    ensures SortedBy(r, key)
    ensures |r| == |s| + 1
    ensures forall i :: 0 <= i < |r| ==> r[i] == x || r[i] in s
  {
    if s == [] then [x]
    else if KeysLe(key(x), key(s[0])) then
      var r := [x] + s;
      assert forall j :: 1 <= j < |r| ==> KeysLe(key(x), key(r[j])) by {
        forall j | 1 <= j < |r| ensures KeysLe(key(x), key(r[j])) {
          if j > 1 {
            KeysLeTransitive(key(x), key(s[0]), key(s[j - 1]));
          }
        }
      }
      r
    else
      KeysLeTotal(key(x), key(s[0]));
      var t := Insert(x, s[1..], key);
      var r := [s[0]] + t;
      assert forall j :: 0 <= j < |t| ==> KeysLe(key(s[0]), key(t[j])) by {
        forall j | 0 <= j < |t| ensures KeysLe(key(s[0]), key(t[j])) {
          if t[j] != x {
            var k :| 0 <= k < |s[1..]| && s[1..][k] == t[j];
            assert s[k + 1] == t[j];
          }
        }
      }
      assert s == [s[0]] + s[1..];
      r
  }

  /** The rows in an order the keys allow (insertion sort). */
  function SortBy<T>(s: seq<T>, key: T -> seq<SortKey>): (r: seq<T>)
    ensures SortedBy(r, key)
    ensures |r| == |s|
  {
    if s == [] then []
    else Insert(s[0], SortBy(s[1..], key), key)
  }

  lemma {:induction false} InsertPermutes<T>(x: T, s: seq<T>, key: T -> seq<SortKey>)
    requires SortedBy(s, key)
    ensures multiset(Insert(x, s, key)) == multiset(s) + multiset{x}
  {
    if s != [] && !KeysLe(key(x), key(s[0])) {
      InsertPermutes(x, s[1..], key);
      assert s == [s[0]] + s[1..];
    }
  }

  /** Sorting only reorders: the sorted rows are the given rows. */
  lemma {:induction false} SortByPermutes<T>(s: seq<T>, key: T -> seq<SortKey>)
    ensures multiset(SortBy(s, key)) == multiset(s)
  {
    if s != [] {
      SortByPermutes(s[1..], key);
      InsertPermutes(s[0], SortBy(s[1..], key), key);
      assert s == [s[0]] + s[1..];
    }
  }
}
